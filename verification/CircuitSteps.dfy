/** Every step of a circuit keeps the invariant. */
module CircuitSteps {
  import opened Common
  import opened NodeId
  import opened Onion
  import opened Circuit
  import opened CircuitInvariant

  /** What the client wraps now is what the invariant expects of the next command. */
  lemma {:induction false} WrapIsExpected(s: System, cmd: Command, j: nat)
    requires WellShaped(s) && Flow(s) && j <= Hops(s)
    requires forall i :: 0 <= i < Hops(s) ==> s.joins[i].sentBefore <= |s.client.sent|
    ensures Wrap(s.client.hops, j, cmd) == Expected(s.joins, s.client.sent + [cmd], |s.client.sent|, j)
    decreases Hops(s) - j
  {
    if j < Hops(s) {
      assert HopAt(s, j);
      WrapIsExpected(s, cmd, j + 1);
    }
  }

  lemma HopsAreOld(s: System, i: nat)
    requires WellShaped(s) && Flow(s) && i < Hops(s)
    ensures s.joins[i].sentBefore <= |s.client.sent| && s.joins[i].gotBefore <= |s.client.got|
  {
    assert NewerAt(s, i, i) && LinkAt(s, i);
  }

  lemma LinkParts(s: System, j: nat)
    requires WellShaped(s) && Flow(s)
    ensures LINK(s, j) && HOP(s, j) && HOP(s, j + 1)
    ensures j > 0 ==> HOP(s, j - 1) && LINK(s, j - 1)
  {
  }

  // ---------------------------------------------------------------- changes outside the flow

  /** Nothing that is numbered differs; a relay may have learned that it has a next hop. */
  ghost predicate SameNumbered(s: System, u: System)
    requires WellShaped(s) && WellShaped(u)
  {
    && u.path == s.path && u.joins == s.joins && u.returned == s.returned
    && u.client.hops == s.client.hops && u.client.sent == s.client.sent && u.client.got == s.client.got
    && (forall j :: 0 <= j < |s.path| && j < Hops(s) ==> SameLink(s, u, j))
  }

  ghost predicate SameLink(s: System, u: System, j: nat)
    requires WellShaped(s) && WellShaped(u) && u.path == s.path && j < |s.path|
  {
    && u.fwd[j] == s.fwd[j] && u.rev[j] == s.rev[j]
    && (u.relays[j] == s.relays[j] || (s.relays[j].On? && u.relays[j] == s.relays[j].(outgoing := true)))
  }

  lemma SameNumbers(s: System, u: System, j: int)
    requires WellShaped(s) && WellShaped(u) && SameNumbered(s, u)
    ensures (Taken(u, j), Wrapped(u, j)) == (Taken(s, j), Wrapped(s, j))
  {
    if 0 <= j < |s.path| && j < Hops(s) { assert SameLink(s, u, j); }
  }

  lemma SameAt(s: System, u: System, j: nat)
    requires WellShaped(s) && Flow(s) && WellShaped(u) && SameNumbered(s, u)
    ensures HOP(u, j) && LINK(u, j) && RECEIVED(u, j) && OUTGOING(u, j)
  {
    assert HopAt(s, j) && LinkAt(s, j) && ReceivedAt(s, j) && OutgoingAt(s, j);
    SameNumbers(s, u, j);
    SameNumbers(s, u, j - 1);
    if j < |s.path| && j < Hops(s) { assert SameLink(s, u, j); }
  }

  lemma SameCell(s: System, u: System, j: nat, p: nat)
    requires WellShaped(s) && Flow(s) && WellShaped(u) && SameNumbered(s, u)
    ensures FWD(u, j, p) && REV(u, j, p)
  {
    assert FwdAt(s, j, p) && RevAt(s, j, p);
    SameNumbers(s, u, j);
    SameNumbers(s, u, j - 1);
    if j < |s.path| && j < Hops(s) { assert SameLink(s, u, j); }
  }

  lemma SameFlow(s: System, u: System)
    requires WellShaped(s) && Flow(s) && WellShaped(u) && SameNumbered(s, u)
    requires forall j :: UntouchedAt(u, j)
    ensures FLOW(u)
  {
    forall j ensures HopAt(u, j) { SameAt(s, u, j); }
    forall j ensures LinkAt(u, j) { SameAt(s, u, j); }
    forall a: nat, j: nat ensures NewerAt(u, a, j) { assert NewerAt(s, a, j); SameNumbers(s, u, j); }
    forall j, p ensures FwdAt(u, j, p) { SameCell(s, u, j, p); }
    forall j, p ensures RevAt(u, j, p) { SameCell(s, u, j, p); }
    forall j ensures ReceivedAt(u, j) { SameAt(s, u, j); }
    forall j ensures OutgoingAt(u, j) { SameAt(s, u, j); }
    SameNumbers(s, u, Hops(s) - 1);
  }

  // ---------------------------------------------------------------- the client sends

  lemma SendNumbers(s: System, cmd: Command, j: int)
    requires WellShaped(s) && Flow(s)
    ensures Wrapped(SendRelay(s, cmd), j) == Wrapped(s, j)
    ensures Taken(SendRelay(s, cmd), j) == if 0 <= j < Hops(s) then Taken(s, j) else |s.client.sent| + 1
  {
    if j >= 0 { assert HopAt(s, j); }
  }

  lemma SendLink(s: System, cmd: Command, j: nat)
    requires WellShaped(s) && Flow(s) && Hops(s) > 0
    ensures HOP(SendRelay(s, cmd), j) && LINK(SendRelay(s, cmd), j)
  {
    assert WellShaped(SendRelay(s, cmd));
    assert HopAt(s, j) && LinkAt(s, j);
    SendNumbers(s, cmd, j);
    SendNumbers(s, cmd, j - 1);
  }

  lemma SendAt(s: System, cmd: Command, j: nat)
    requires WellShaped(s) && Flow(s) && Hops(s) > 0
    ensures var t := SendRelay(s, cmd); REST(t, j)
  {
    assert WellShaped(SendRelay(s, cmd));
    assert ReceivedAt(s, j) && OutgoingAt(s, j) && UntouchedAt(s, j) && HopAt(s, j);
    SendNumbers(s, cmd, j);
  }

  lemma SendRev(s: System, cmd: Command, j: nat, p: nat)
    requires WellShaped(s) && Flow(s) && Hops(s) > 0
    ensures REV(SendRelay(s, cmd), j, p)
  {
    assert WellShaped(SendRelay(s, cmd));
    assert RevAt(s, j, p);
    SendNumbers(s, cmd, j - 1);
  }

  lemma SendKeepsFlow(s: System, cmd: Command)
    requires WellShaped(s) && Flow(s) && Hops(s) > 0
    ensures FLOW(SendRelay(s, cmd))
  {
    var t := SendRelay(s, cmd);
    forall j ensures HopAt(t, j) { SendLink(s, cmd, j); }
    forall j ensures LinkAt(t, j) { SendLink(s, cmd, j); }
    forall i, j ensures NewerAt(t, i, j) { assert NewerAt(s, i, j) && HopAt(s, j); }
    forall j: nat, p: nat ensures FwdAt(t, j, p) { SendFwd(s, cmd, j, p); }
    forall j: nat, p: nat ensures RevAt(t, j, p) { SendRev(s, cmd, j, p); }
    forall j ensures ReceivedAt(t, j) { SendAt(s, cmd, j); }
    forall j ensures OutgoingAt(t, j) { SendAt(s, cmd, j); }
    forall j ensures UntouchedAt(t, j) { SendAt(s, cmd, j); }
    assert HopAt(s, Hops(s) - 1);
  }

  lemma SendFwd(s: System, cmd: Command, j: nat, p: nat)
    requires WellShaped(s) && Flow(s) && Hops(s) > 0
    ensures FWD(SendRelay(s, cmd), j, p)
  {
    assert WellShaped(SendRelay(s, cmd));
    var t := SendRelay(s, cmd);
    assert LinkAt(s, j) && HopAt(s, j) && HopAt(s, 0);
    if j < Hops(s) && p < |t.fwd[j]| {
      if p < |s.fwd[j]| {
        assert FwdAt(s, j, p);
        ExpectedGrows(s.joins, s.client.sent, [cmd], Taken(s, j) + p, j);
      } else {
        forall i | 0 <= i < Hops(s) ensures s.joins[i].sentBefore <= |s.client.sent| { HopsAreOld(s, i); }
        WrapIsExpected(s, cmd, 0);
      }
    }
  }

  lemma SendKeepsSecrets(s: System, cmd: Command)
    requires WellShaped(s) && Flow(s) && Secrets(s)
    ensures SECRETS(SendRelay(s, cmd))
  {
    var t := SendRelay(s, cmd);
    var n := |s.seals|;
    forall j ensures KeysAt(t, j) { assert KeysAt(s, j); }
    forall i, j ensures KeysApart(t, i, j) { assert KeysApart(s, i, j); }
    forall m: nat ensures SealAt(t, m) {
      if m < n {
        assert SealAt(s, m);
        var j: nat :| SealedBy(s, s.seals[m], j);
        assert SealedBy(t, t.seals[m], j);
      } else if m < |t.seals| {
        assert HopAt(s, m - n);
        assert SealedBy(t, t.seals[m], m - n);
      }
    }
    forall i, j | 0 <= i < j < |t.seals| ensures t.seals[i] != t.seals[j] {
      if j >= n {
        if i >= n {
          WrapSealsApart(s, i - n, j - n);
        } else {
          OldSealsDiffer(s, i, j - n);
        }
      }
    }
  }

  lemma WrapSealsApart(s: System, i: nat, j: nat)
    requires WellShaped(s) && Flow(s) && Secrets(s) && i < j < Hops(s)
    ensures s.client.hops[i].fwdKey != s.client.hops[j].fwdKey
  {
    assert HopAt(s, i) && HopAt(s, j) && KeysApart(s, i, j);
  }

  lemma OldSealsDiffer(s: System, i: nat, j: nat)
    requires WellShaped(s) && Flow(s) && Secrets(s) && i < |s.seals| && j < Hops(s)
    ensures s.seals[i] != (s.client.hops[j].fwdKey, s.client.hops[j].sendSeq)
  {
    assert SealAt(s, i) && HopAt(s, j) && KeysAt(s, j);
    var m: nat :| SealedBy(s, s.seals[i], m);
    assert KeysApart(s, m, j) && KeysAt(s, m);
  }

  lemma ClientExtendKeeps(s: System, priv: Priv, nonce: Nonce)
    requires Inv(s) && Enabled(s, ClientExtend(priv, nonce))
    ensures INVARIANT(Apply(s, ClientExtend(priv, nonce)))
  {
    var k := Hops(s);
    var cmd := Extend(s.path[k], Pub(priv), nonce);
    var t := SendRelay(s, cmd);
    var u := Apply(s, ClientExtend(priv, nonce));
    SendKeepsFlow(s, cmd);
    SendKeepsSecrets(s, cmd);
    assert HopAt(s, k - 1);
    assert Resting(s);
    assert Taken(s, k - 1) == |s.client.sent| && Taken(u, k - 1) == Taken(s, k - 1);
    assert Extending(u);
    SameRunning(t, u);
  }

  /** Only the client's status and the drawn keys differ. */
  lemma SameRunning(t: System, u: System)
    requires WellShaped(t) && Flow(t) && Secrets(t)
    requires u == t.(client := t.client.(pending := u.client.pending, failed := u.client.failed), used := u.used)
    requires t.used <= u.used
    requires u.client.pending.Some? ==> u.client.pending.value.priv in u.used
    ensures SOUND(u)
  {
    forall j ensures UntouchedAt(u, j) { assert UntouchedAt(t, j); }
    SameFlow(t, u);
    forall j ensures KeysAt(u, j) { assert KeysAt(t, j); }
    forall i, j ensures KeysApart(u, i, j) { assert KeysApart(t, i, j); }
    forall m: nat ensures SealAt(u, m) {
      assert SealAt(t, m);
      if m < |t.seals| {
        var j: nat :| SealedBy(t, t.seals[m], j);
        assert SealedBy(u, u.seals[m], j);
      }
    }
  }

  lemma ClientSendKeeps(s: System, cmd: Command)
    requires Inv(s) && Enabled(s, ClientSend(cmd))
    ensures INVARIANT(Apply(s, ClientSend(cmd)))
  {
    SendKeepsFlow(s, cmd);
    SendKeepsSecrets(s, cmd);
    assert Resting(s);
    assert Resting(SendRelay(s, cmd));
  }

  // ---------------------------------------------------------------- a cell waits at a relay

  /** Only the last hop has no next hop, and a hop that has one has nothing to hand it before the
      client knows it. */
  lemma WaitingForward(s: System, i: nat)
    requires Inv(s) && i < |s.path| && s.relays[i].On? && |s.fwd[i]| > 0 && s.fwd[i][0].Relay?
    ensures i < Hops(s) && OPENS(s, i) && Current(s, Taken(s, i))
    ensures s.relays[i].outgoing <==> i + 1 < Hops(s)
    ensures Opened(s, i) == Expected(s.joins, s.client.sent, Taken(s, i), i + 1)
  {
    assert UntouchedAt(s, i) && HopAt(s, i) && OutgoingAt(s, i) && LinkAt(s, i);
    assert FwdAt(s, i, 0);
    if i == Hops(s) - 1 {
      if i > 0 { assert LinkAt(s, i - 1); }
      assert Taken(s, i) < |s.client.sent|;
    }
  }

  /** No relay ever fails to open a cell, and the last hop always finds a command. */
  lemma ForwardAlwaysOpens(s: System, i: nat)
    requires Inv(s) && i < |s.path| && s.relays[i].On? && |s.fwd[i]| > 0 && s.fwd[i][0].Relay?
    ensures OPENS(s, i) && ENABLED(s, RelayForward(i))
  {
    WaitingForward(s, i);
    if i + 1 == Hops(s) {
      assert LinkAt(s, i) && HopAt(s, i);
      assert Taken(s, i) < |s.client.sent|;
      assert s.joins[i].sentBefore <= Taken(s, i);
      assert Opened(s, i) == Plain(s.client.sent[Taken(s, i)]);
    }
  }

  /** `n` is a command that has been sent, and no hop joined after it. */
  ghost predicate Current(s: System, n: int) {
    0 <= n < |s.client.sent| && forall m :: 0 <= m < Hops(s) ==> s.joins[m].sentBefore <= n
  }

  /** What opening one cell at relay `i` does to everything that is numbered. */
  ghost predicate TookOne(s: System, t: System, i: nat)
    requires WellShaped(s) && WellShaped(t)
  {
    && i < Hops(s) <= |s.path| && t.path == s.path && s.relays[i].On? && Current(s, Taken(s, i))
    && t.client == s.client && t.joins == s.joins && t.returned == s.returned && t.rev == s.rev
    && t.relays == s.relays[i := s.relays[i].(fwdSeq := s.relays[i].fwdSeq + 1, received := if t.relays[i].On? then t.relays[i].received else [])]
    && |s.fwd[i]| > 0 && t.fwd[i] == s.fwd[i][1..]
    && (forall j :: 0 <= j < Hops(s) && j != i && j != i + 1 ==> t.fwd[j] == s.fwd[j])
    && (i + 1 < Hops(s) ==> t.fwd[i + 1] == s.fwd[i + 1] + [Relay(Expected(s.joins, s.client.sent, Taken(s, i), i + 1))])
  }

  lemma TookOneFwd(s: System, t: System, i: nat, j: nat, p: nat)
    requires WellShaped(s) && Flow(s) && WellShaped(t)
    requires TookOne(s, t, i)
    ensures FWD(t, j, p)
  {
    if j < Hops(s) && p < |t.fwd[j]| {
      TookOneNumbers(s, t, i, j);
      assert LinkAt(s, j);
      if j == i {
        assert FwdAt(s, i, p + 1);
      } else if j == i + 1 && p == |s.fwd[j]| {
        assert Taken(s, j) + p == Taken(s, i);
      } else {
        assert FwdAt(s, j, p);
      }
    }
  }

  lemma TookOneNumbers(s: System, t: System, i: nat, j: int)
    requires WellShaped(s) && WellShaped(t) && TookOne(s, t, i)
    ensures Wrapped(t, j) == Wrapped(s, j)
    ensures Taken(t, j) == if j == i then Taken(s, j) + 1 else Taken(s, j)
  {
  }

  lemma TookOneHop(s: System, t: System, i: nat, j: nat)
    requires WellShaped(s) && Flow(s) && WellShaped(t) && TookOne(s, t, i)
    ensures HOP(t, j) && OUTGOING(t, j)
  {
    assert HopAt(s, j) && OutgoingAt(s, j);
  }

  lemma TookOneLink(s: System, t: System, i: nat, j: nat)
    requires WellShaped(s) && Flow(s) && WellShaped(t) && TookOne(s, t, i)
    ensures LINK(t, j)
  {
    assert LinkAt(s, j);
    TookOneNumbers(s, t, i, j);
    TookOneNumbers(s, t, i, j - 1);
  }

  lemma TookOneKeeps(s: System, t: System, i: nat)
    requires WellShaped(s) && Flow(s) && WellShaped(t)
    requires TookOne(s, t, i)
    requires forall j :: ReceivedAt(t, j)
    requires forall j :: UntouchedAt(t, j)
    ensures FLOW(t)
  {
    forall j ensures HopAt(t, j) { TookOneHop(s, t, i, j); }
    forall j ensures LinkAt(t, j) { TookOneLink(s, t, i, j); }
    forall a: nat, j: nat ensures NewerAt(t, a, j) { assert NewerAt(s, a, j); TookOneNumbers(s, t, i, j); }
    forall j: nat, p: nat ensures FwdAt(t, j, p) { TookOneFwd(s, t, i, j, p); }
    forall j: nat, p: nat ensures RevAt(t, j, p) { assert RevAt(s, j, p); TookOneNumbers(s, t, i, j - 1); }
    forall j ensures OutgoingAt(t, j) { TookOneHop(s, t, i, j); }
    TookOneNumbers(s, t, i, Hops(s) - 1);
  }

  /** Seals and keys do not change when a relay only opens. */
  lemma SecretsSame(s: System, t: System)
    requires WellShaped(s) && Secrets(s) && WellShaped(t)
    requires t.client == s.client && t.path == s.path && t.used == s.used && t.seals == s.seals
    requires forall j :: 0 <= j < |s.path| ==>
               (t.relays[j].On? <==> s.relays[j].On?)
               && (s.relays[j].On? ==> t.relays[j].fwdKey == s.relays[j].fwdKey && t.relays[j].revKey == s.relays[j].revKey
                                       && t.relays[j].revSeq == s.relays[j].revSeq)
    ensures SECRETS(t)
  {
    forall j ensures KeysAt(t, j) { assert KeysAt(s, j); }
    forall i, j ensures KeysApart(t, i, j) { assert KeysApart(s, i, j); }
    forall m: nat ensures SealAt(t, m) {
      assert SealAt(s, m);
      if m < |s.seals| {
        var j: nat :| SealedBy(s, s.seals[m], j);
        assert SealedBy(t, t.seals[m], j);
      }
    }
  }

  lemma PassFlow(s: System, i: nat)
    requires Inv(s) && Enabled(s, RelayForward(i)) && s.relays[i].outgoing
    ensures SOUND(Apply(s, RelayForward(i)))
    ensures TookOne(s, Apply(s, RelayForward(i)), i)
  {
    var t := Apply(s, RelayForward(i));
    WaitingForward(s, i);
    assert TookOne(s, t, i);
    forall j: nat ensures ReceivedAt(t, j) { assert ReceivedAt(s, j); TookOneNumbers(s, t, i, j); }
    forall j ensures UntouchedAt(t, j) { assert UntouchedAt(s, j); }
    TookOneKeeps(s, t, i);
    SecretsSame(s, t);
  }

  lemma PassKeeps(s: System, i: nat)
    requires Inv(s) && Enabled(s, RelayForward(i)) && s.relays[i].outgoing
    ensures INVARIANT(Apply(s, RelayForward(i)))
  {
    var t := Apply(s, RelayForward(i));
    PassFlow(s, i);
    assert !FwdDrained(s) by { assert Taken(s, i) != |s.client.sent|; }
    TookOneNumbers(s, t, i, Hops(s) - 1);
    if Extending(s) {
      assert Extending(t);
    } else {
      assert Resting(t);
    }
  }

  /** The last hop acts on a command: the part that all commands share. */
  function Delivered(s: System, i: nat): System
    requires WellShaped(s) && Opens(s, i) && Opened(s, i).Plain?
  {
    var t := TakeForward(s, i);
    t.(relays := t.relays[i := Receive(t.relays[i], Opened(s, i).cmd)])
  }

  lemma DeliveredKeeps(s: System, i: nat)
    requires Inv(s) && Enabled(s, RelayForward(i)) && !s.relays[i].outgoing
    ensures i + 1 == Hops(s) && Current(s, Taken(s, i)) && Opened(s, i).cmd == s.client.sent[Taken(s, i)]
    ensures SOUND(Delivered(s, i))
  {
    var t := Delivered(s, i);
    WaitingForward(s, i);
    forall j ensures ReceivedAt(t, j) {
      assert ReceivedAt(s, j) && HopAt(s, j) && NewerAt(s, j, i);
      if j == i {
        var lo := s.joins[i].sentBefore;
        assert s.client.sent[lo..Taken(s, i) + 1] == s.client.sent[lo..Taken(s, i)] + [s.client.sent[Taken(s, i)]];
      }
    }
    forall j ensures UntouchedAt(t, j) { assert UntouchedAt(s, j); }
    TookOneKeeps(s, t, i);
    SecretsSame(s, t);
  }

  /** The last hop gets an EXTEND only while the client is extending, anything else only once the
      whole path is built. */
  lemma DeliveredStage(s: System, i: nat)
    requires Inv(s) && Enabled(s, RelayForward(i)) && !s.relays[i].outgoing
    ensures i + 1 == Hops(s)
    ensures if Opened(s, i).cmd.Extend?
            then Extending(s) && Opened(s, i).cmd == s.client.sent[|s.client.sent| - 1]
            else Resting(s) && Hops(s) == |s.path|
  {
    DeliveredKeeps(s, i);
    assert LinkAt(s, i) && NewerAt(s, i, i);
    if i > 0 { assert LinkAt(s, i - 1); }
    assert !FwdDrained(s) by { assert Taken(s, i) != |s.client.sent|; }
  }

  lemma DeliverExtendKeeps(s: System, i: nat)
    requires Inv(s) && Enabled(s, RelayForward(i)) && !s.relays[i].outgoing && Opened(s, i).cmd.Extend?
    ensures INVARIANT(Apply(s, RelayForward(i)))
  {
    var u := Delivered(s, i);
    var t := Apply(s, RelayForward(i));
    DeliveredKeeps(s, i);
    DeliveredStage(s, i);
    DrainedWhenLastIs(u);
    AddCreate(u, t);
    assert forall j :: 0 <= j < Hops(u) ==> Taken(t, j) == Taken(u, j);
    assert Creating(t);
  }

  lemma DeliverKeeps(s: System, i: nat)
    requires Inv(s) && Enabled(s, RelayForward(i)) && !s.relays[i].outgoing
    ensures INVARIANT(Apply(s, RelayForward(i)))
  {
    if Opened(s, i).cmd.Extend? {
      DeliverExtendKeeps(s, i);
    } else {
      DeliveredKeeps(s, i);
      DeliveredStage(s, i);
      assert Resting(Apply(s, RelayForward(i)));
    }
  }

  /** The last hop is furthest behind, so once it has caught up everybody has. */
  lemma DrainedWhenLastIs(s: System)
    requires WellShaped(s) && Flow(s) && Hops(s) > 0 && Taken(s, Hops(s) - 1) == |s.client.sent|
    ensures FwdDrained(s)
  {
    var j := Hops(s) - 1;
    while j > 0
      invariant 0 <= j < Hops(s)
      invariant forall i :: j <= i < Hops(s) ==> Taken(s, i) == |s.client.sent|
    {
      assert LinkAt(s, j) && LinkAt(s, j - 1);
      j := j - 1;
    }
  }

  /** A CREATE in front of the next relay is not yet part of the flow. */
  lemma AddCreate(u: System, t: System)
    requires WellShaped(u) && Flow(u) && Secrets(u) && Hops(u) < |u.path|
    requires WellShaped(t) && |t.fwd| == |u.fwd| && t == u.(fwd := t.fwd)
    requires forall j :: 0 <= j < |u.path| && j != Hops(u) ==> t.fwd[j] == u.fwd[j]
    ensures SOUND(t)
  {
    forall j ensures UntouchedAt(t, j) { assert UntouchedAt(u, j); }
    SameFlow(u, t);
    SecretsSame(u, t);
  }

  // ---------------------------------------------------------------- towards the client

  /** What wrapping one more returned command at relay `i` does to everything that is numbered. */
  ghost predicate GaveOne(s: System, t: System, i: nat)
    requires WellShaped(s) && WellShaped(t)
  {
    && i < Hops(s) <= |s.path| && t.path == s.path && s.relays[i].On?
    && t.client == s.client && t.joins == s.joins && t.fwd == s.fwd && s.returned <= t.returned
    && t.relays == s.relays[i := s.relays[i].(revSeq := s.relays[i].revSeq + 1)]
    && 0 <= Wrapped(s, i) < |t.returned| && (forall m :: 0 <= m < Hops(s) ==> s.joins[m].gotBefore <= Wrapped(s, i))
    && t.rev[i] == s.rev[i] + [Relay(ExpectedBack(s.joins, t.returned, Wrapped(s, i), i))]
    && (forall j :: 0 <= j < Hops(s) && j != i && j != i + 1 ==> t.rev[j] == s.rev[j])
    && (if i + 1 < Hops(s) then t.returned == s.returned && |s.rev[i + 1]| > 0 && t.rev[i + 1] == s.rev[i + 1][1..]
        else |t.returned| == |s.returned| + 1)
  }

  lemma OldCellStillFits(s: System, t: System, j: nat, p: nat, n: nat)
    requires j < Hops(s) && t.joins == s.joins && s.returned <= t.returned && n < |s.returned|
    requires forall i :: 0 <= i < Hops(s) ==> s.joins[i].gotBefore <= n
    ensures n < |t.returned| && ExpectedBack(t.joins, t.returned, n, j) == ExpectedBack(s.joins, s.returned, n, j)
  {
    assert t.returned == s.returned + t.returned[|s.returned|..];
    ExpectedBackGrows(s.joins, s.returned, t.returned[|s.returned|..], n, j);
  }

  lemma GaveOneNumbers(s: System, t: System, i: nat, j: int)
    requires WellShaped(s) && WellShaped(t) && GaveOne(s, t, i)
    ensures Taken(t, j) == Taken(s, j)
    ensures Wrapped(t, j) == if j == i then Wrapped(s, j) + 1 else Wrapped(s, j)
  {
  }

  lemma GaveOneRev(s: System, t: System, i: nat, j: nat, p: nat)
    requires WellShaped(s) && Flow(s) && WellShaped(t) && GaveOne(s, t, i)
    ensures REV(t, j, p)
  {
    if j < Hops(s) && p < |t.rev[j]| {
      GaveOneNumbers(s, t, i, j - 1);
      if j == i && p == |s.rev[i]| {
        assert LinkAt(s, i);
      } else {
        var q := if j == i + 1 then p + 1 else p;
        assert RevAt(s, j, q);
        OldCellStillFits(s, t, j, q, Wrapped(s, j - 1) + q);
      }
    }
  }

  lemma GaveOneLink(s: System, t: System, i: nat, j: nat)
    requires WellShaped(s) && Flow(s) && WellShaped(t) && GaveOne(s, t, i)
    ensures LINK(t, j)
  {
    LinkParts(s, j);
    GaveOneNumbers(s, t, i, j);
    GaveOneNumbers(s, t, i, j - 1);
    assert LinkAt(s, i);
  }

  lemma GaveOneHop(s: System, t: System, i: nat, j: nat)
    requires WellShaped(s) && Flow(s) && WellShaped(t) && GaveOne(s, t, i)
    ensures HOP(t, j) && OUTGOING(t, j) && RECEIVED(t, j)
  {
    assert HopAt(s, j) && OutgoingAt(s, j) && ReceivedAt(s, j);
    GaveOneNumbers(s, t, i, j);
  }

  lemma GaveOneKeeps(s: System, t: System, i: nat)
    requires WellShaped(s) && Flow(s) && WellShaped(t) && GaveOne(s, t, i)
    requires forall j :: UntouchedAt(t, j)
    ensures FLOW(t)
  {
    forall j ensures HopAt(t, j) { GaveOneHop(s, t, i, j); }
    forall j ensures LinkAt(t, j) { GaveOneLink(s, t, i, j); }
    forall a: nat, j: nat ensures NewerAt(t, a, j) { assert NewerAt(s, a, j); GaveOneNumbers(s, t, i, j); }
    forall j: nat, p: nat ensures FwdAt(t, j, p) { assert FwdAt(s, j, p); GaveOneNumbers(s, t, i, j); }
    forall j: nat, p: nat ensures RevAt(t, j, p) { GaveOneRev(s, t, i, j, p); }
    forall j ensures OutgoingAt(t, j) { GaveOneHop(s, t, i, j); }
    forall j ensures ReceivedAt(t, j) { GaveOneHop(s, t, i, j); }
    GaveOneNumbers(s, t, i, Hops(s) - 1);
  }

  lemma GaveOneSecrets(s: System, t: System, i: nat)
    requires WellShaped(s) && Secrets(s) && WellShaped(t) && i < |s.path| && s.relays[i].On?
    requires t.client == s.client && t.path == s.path && t.used == s.used
    requires t.seals == s.seals + [(s.relays[i].revKey, s.relays[i].revSeq)]
    requires t.relays == s.relays[i := s.relays[i].(revSeq := s.relays[i].revSeq + 1)]
    ensures SECRETS(t)
  {
    var n := |s.seals|;
    var newest := (s.relays[i].revKey, s.relays[i].revSeq);
    forall j ensures KeysAt(t, j) { assert KeysAt(s, j); }
    forall a, j ensures KeysApart(t, a, j) { assert KeysApart(s, a, j); }
    forall m: nat ensures SealAt(t, m) {
      if m < n {
        assert SealAt(s, m);
        var j: nat :| SealedBy(s, s.seals[m], j);
        assert SealedBy(t, t.seals[m], j);
      } else if m == n {
        assert SealedBy(t, t.seals[m], i);
      }
    }
    forall a | 0 <= a < n ensures s.seals[a] != newest {
      assert SealAt(s, a) && KeysAt(s, i);
      var j: nat :| SealedBy(s, s.seals[a], j);
      assert KeysAt(s, j) && KeysApart(s, i, j);
    }
  }

  lemma ReturnKeepsFlow(s: System, cmd: Command)
    requires WellShaped(s) && Flow(s) && Secrets(s) && 0 < Hops(s) <= |s.path| && s.relays[Hops(s) - 1].On?
    ensures SOUND(Return(s, Hops(s) - 1, cmd))
  {
    var i := Hops(s) - 1;
    var t := Return(s, i, cmd);
    assert HopAt(s, i) && LinkAt(s, i);
    forall m | 0 <= m < Hops(s) ensures s.joins[m].gotBefore <= Wrapped(s, i) { assert NewerAt(s, m, i); }
    forall j ensures UntouchedAt(t, j) { assert UntouchedAt(s, j); }
    assert ExpectedBack(s.joins, t.returned, Wrapped(s, i), i)
        == Sealed(s.relays[i].revKey, s.relays[i].revSeq, Plain(cmd));
    GaveOneKeeps(s, t, i);
    GaveOneSecrets(s, t, i);
  }

  lemma RefuseKeeps(s: System, i: nat, reason: seq<Byte>)
    requires Inv(s) && Enabled(s, RelayRefuse(i, reason))
    ensures INVARIANT(Apply(s, RelayRefuse(i, reason)))
  {
    var u := Delivered(s, i);
    WaitingForward(s, i);
    ForwardAlwaysOpens(s, i);
    DeliveredKeeps(s, i);
    DeliveredStage(s, i);
    DrainedWhenLastIs(u);
    ReturnKeepsFlow(u, OpenError(reason));
    var t := Apply(s, RelayRefuse(i, reason));
    assert forall j :: 0 <= j < Hops(u) ==> Taken(t, j) == Taken(u, j);
    assert Refusing(t);
  }

  lemma TerminalSendKeeps(s: System, cmd: Command)
    requires Inv(s) && Enabled(s, TerminalSend(cmd))
    ensures INVARIANT(Apply(s, TerminalSend(cmd)))
  {
    var z := |s.path| - 1;
    assert UntouchedAt(s, z) && ReceivedAt(s, z) && HopAt(s, z);
    assert Hops(s) == |s.path|;
    ReturnKeepsFlow(s, cmd);
    assert Resting(s);
    assert Resting(Apply(s, TerminalSend(cmd)));
  }

  /** A reverse relay cell only ever waits between two established hops. */
  lemma WaitingReverse(s: System, i: nat)
    requires Inv(s) && i + 1 < |s.path| && s.relays[i].On? && |s.rev[i + 1]| > 0 && s.rev[i + 1][0].Relay?
    ensures i + 1 < Hops(s) && Wrapped(s, i) < |s.returned| && s.rev[i + 1][0].layer == ExpectedBackAt(s, Wrapped(s, i), i + 1)
  {
    assert UntouchedAt(s, i + 1) && RevAt(s, i + 1, 0);
  }

  ghost function ExpectedBackAt(s: System, n: int, j: nat): Layer
  {
    if 0 <= n < |s.returned| && j <= |s.joins| && forall i :: j <= i < |s.joins| ==> s.joins[i].gotBefore <= n
    then ExpectedBack(s.joins, s.returned, n, j) else Plain(Close)
  }

  lemma ReverseFlow(s: System, i: nat)
    requires Inv(s) && Enabled(s, RelayReverse(i))
    ensures SOUND(Apply(s, RelayReverse(i)))
    ensures i + 1 < Hops(s) && !RevDrained(s)
  {
    var t := Apply(s, RelayReverse(i));
    WaitingReverse(s, i);
    assert HopAt(s, i) && LinkAt(s, i) && RevAt(s, i + 1, 0);
    forall j ensures UntouchedAt(t, j) { assert UntouchedAt(s, j); }
    assert ExpectedBack(s.joins, s.returned, Wrapped(s, i), i)
        == Sealed(s.relays[i].revKey, s.relays[i].revSeq, s.rev[i + 1][0].layer);
    GaveOneKeeps(s, t, i);
    GaveOneSecrets(s, t, i);
  }

  lemma ReverseKeeps(s: System, i: nat)
    requires Inv(s) && Enabled(s, RelayReverse(i))
    ensures INVARIANT(Apply(s, RelayReverse(i)))
  {
    var t := Apply(s, RelayReverse(i));
    ReverseFlow(s, i);
    assert forall j :: 0 <= j < Hops(s) ==> Taken(t, j) == Taken(s, j);
    if Resting(s) {
      assert Resting(t);
    } else if Reporting(s) {
      assert Reporting(t);
    } else {
      assert Refusing(t);
    }
  }

  // ---------------------------------------------------------------- the client receives

  lemma {:induction false} UnwrapsExpected(s: System, n: nat, j: nat)
    requires WellShaped(s) && Flow(s) && j <= Hops(s) && n == |s.client.got| && n < |s.returned|
    requires forall i :: 0 <= i < Hops(s) ==> s.joins[i].gotBefore <= n
    ensures Unwrap(s.client.hops, j, ExpectedBack(s.joins, s.returned, n, j)) == Some(Plain(s.returned[n]))
    decreases Hops(s) - j
  {
    if j < Hops(s) {
      assert HopAt(s, j);
      UnwrapsExpected(s, n, j + 1);
    }
  }

  /** The client never fails to open a cell, and finds the next returned command in it. */
  lemma ClientAlwaysOpens(s: System)
    requires Inv(s) && |s.rev[0]| > 0 && s.rev[0][0].Relay?
    ensures Hops(s) > 0 && ClientOpens(s) && |s.client.got| < |s.returned|
    ensures ClientOpened(s) == s.returned[|s.client.got|]
  {
    assert UntouchedAt(s, 0) && RevAt(s, 0, 0);
    if Hops(s) > 0 {
      UnwrapsExpected(s, |s.client.got|, 0);
    }
  }

  /** The client has received one more command and changed nothing else. */
  function Received(s: System): System
    requires WellShaped(s) && ClientOpens(s)
  {
    s.(client := s.client.(hops := AfterReceive(s.client.hops), got := s.client.got + [ClientOpened(s)]),
       rev := Pop(s.rev, 0))
  }

  /** The next returned command has reached the client. */
  ghost predicate Arrived(s: System)
    requires WellShaped(s)
  {
    && ClientOpens(s) && 0 < Hops(s) <= |s.path|
    && |s.client.got| < |s.returned| && ClientOpened(s) == s.returned[|s.client.got|]
  }

  /** Everything that was wrapped and not yet received is at least one more than what was received. */
  lemma {:induction false} ReceivedBehind(s: System, j: nat)
    requires WellShaped(s) && Flow(s) && |s.rev[0]| > 0
    ensures j < Hops(s) ==> |s.client.got| < Wrapped(s, j)
  {
    LinkParts(s, j);
    if j > 0 { ReceivedBehind(s, j - 1); }
  }

  lemma ReceivedLink(s: System, j: nat)
    requires WellShaped(s) && Flow(s) && Arrived(s)
    ensures HOP(Received(s), j) && LINK(Received(s), j)
  {
    assert WellShaped(Received(s));
    LinkParts(s, j);
    ReceivedBehind(s, j);
  }

  lemma ReceivedRev(s: System, j: nat, p: nat)
    requires WellShaped(s) && Flow(s) && Arrived(s)
    ensures REV(Received(s), j, p)
  {
    assert WellShaped(Received(s));
    LinkParts(s, j);
    assert RevAt(s, j, if j == 0 then p + 1 else p);
  }

  lemma ReceivedRest(s: System, j: nat)
    requires WellShaped(s) && Flow(s) && Arrived(s)
    ensures REST(Received(s), j)
  {
    assert WellShaped(Received(s));
    assert ReceivedAt(s, j) && HopAt(s, j) && OutgoingAt(s, j) && UntouchedAt(s, j);
  }

  lemma ReceivedFlow(s: System)
    requires WellShaped(s) && Flow(s) && Arrived(s)
    ensures FLOW(Received(s))
  {
    var t := Received(s);
    forall j ensures HopAt(t, j) { ReceivedLink(s, j); }
    forall j ensures LinkAt(t, j) { ReceivedLink(s, j); }
    forall a: nat, j: nat ensures NewerAt(t, a, j) { assert NewerAt(s, a, j) && HopAt(s, j); }
    forall j: nat, p: nat ensures FwdAt(t, j, p) { assert FwdAt(s, j, p) && HopAt(s, j); }
    forall j: nat, p: nat ensures RevAt(t, j, p) { ReceivedRev(s, j, p); }
    forall j ensures ReceivedAt(t, j) { ReceivedRest(s, j); }
    forall j ensures OutgoingAt(t, j) { ReceivedRest(s, j); }
    forall j ensures UntouchedAt(t, j) { ReceivedRest(s, j); }
    assert HopAt(s, Hops(s) - 1);
  }

  lemma ReceivedKeeps(s: System)
    requires Inv(s) && Enabled(s, ClientReceive)
    ensures Hops(s) > 0 && SOUND(Received(s))
    ensures |s.client.got| < |s.returned| && ClientOpened(s) == s.returned[|s.client.got|]
  {
    ClientAlwaysOpens(s);
    ReceivedFlow(s);
    ReceivedSecrets(s);
  }

  lemma ReceivedSecrets(s: System)
    requires Inv(s) && Enabled(s, ClientReceive)
    ensures SECRETS(Received(s))
  {
    var t := Received(s);
    forall j ensures KeysAt(t, j) { assert KeysAt(s, j); }
    forall a, j ensures KeysApart(t, a, j) { assert KeysApart(s, a, j); }
    forall m: nat ensures SealAt(t, m) {
      assert SealAt(s, m);
      if m < |s.seals| {
        var j: nat :| SealedBy(s, s.seals[m], j);
        assert SealedBy(t, t.seals[m], j);
      }
    }
  }

  // ---------------------------------------------------------------- a hop joins

  /** What is needed for the next relay to become a hop: it is ready, everything has been handled,
      and the last hop already sends its cells on. */
  ghost predicate CanJoin(u: System, pub: Pub, nonce: Nonce)
    requires WellShaped(u)
  {
    && Hops(u) < |u.path| && NextReady(u, pub, nonce)
    && FwdDrained(u) && RevDrained(u) && LastOutgoing(u, true)
    && u.fwd[Hops(u)] == [] && u.rev[Hops(u)] == []
  }

  lemma AllCaughtUp(u: System, j: nat)
    requires WellShaped(u) && Flow(u) && RevDrained(u)
    ensures j < Hops(u) ==> Wrapped(u, j) == |u.client.got| && u.rev[j] == []
    ensures FwdDrained(u) && j < Hops(u) ==> Taken(u, j) == |u.client.sent| && u.fwd[j] == []
  {
    LinkParts(u, j);
  }

  lemma JoinedNumbers(u: System, pub: Pub, nonce: Nonce, j: nat)
    requires WellShaped(u) && Flow(u) && CanJoin(u, pub, nonce)
    ensures var t := AddHop(u, pub, nonce);
            && WellShaped(t) && HOP(t, j)
            && (j < Hops(t) ==> Taken(t, j) == |t.client.sent| && Wrapped(t, j) == |t.client.got| && t.fwd[j] == [] && t.rev[j] == [])
  {
    AllCaughtUp(u, j);
    assert HopAt(u, j);
  }

  lemma JoinedAt(u: System, pub: Pub, nonce: Nonce, j: nat)
    requires WellShaped(u) && Flow(u) && CanJoin(u, pub, nonce)
    ensures var t := AddHop(u, pub, nonce);
            WellShaped(t) && LINK(t, j) && REST(t, j)
  {
    JoinedNumbers(u, pub, nonce, j);
    if j > 0 { JoinedNumbers(u, pub, nonce, j - 1); }
    AllCaughtUp(u, j);
    assert ReceivedAt(u, j) && HopAt(u, j) && OutgoingAt(u, j) && UntouchedAt(u, j);
    if j < Hops(u) { HopsAreOld(u, j); }
  }

  lemma JoinKeeps(u: System, pub: Pub, nonce: Nonce)
    requires WellShaped(u) && Flow(u) && Secrets(u) && CanJoin(u, pub, nonce)
    ensures var t := AddHop(u, pub, nonce);
            WellShaped(t) && Flow(t) && Secrets(t) && FwdDrained(t) && RevDrained(t) && LastOutgoing(t, false)
            && Hops(t) == Hops(u) + 1 && NextOff(t)
  {
    var t := AddHop(u, pub, nonce);
    var k := Hops(u);
    forall j ensures HopAt(t, j) { JoinedNumbers(u, pub, nonce, j); }
    forall j ensures LinkAt(t, j) { JoinedAt(u, pub, nonce, j); }
    forall a: nat, j: nat ensures NewerAt(t, a, j) {
      JoinedNumbers(u, pub, nonce, j);
      if a < k { HopsAreOld(u, a); }
    }
    forall j: nat, p: nat ensures FwdAt(t, j, p) { JoinedNumbers(u, pub, nonce, j); }
    forall j: nat, p: nat ensures RevAt(t, j, p) { JoinedNumbers(u, pub, nonce, j); }
    forall j ensures ReceivedAt(t, j) { JoinedAt(u, pub, nonce, j); }
    forall j ensures OutgoingAt(t, j) { JoinedAt(u, pub, nonce, j); }
    forall j ensures UntouchedAt(t, j) { JoinedAt(u, pub, nonce, j); }
    forall j | 0 <= j < Hops(t) ensures Taken(t, j) == |t.client.sent| { JoinedNumbers(u, pub, nonce, j); }
    JoinedNumbers(u, pub, nonce, k);
    assert UntouchedAt(u, k + 1);
    forall i | 0 <= i < k ensures u.joins[i].sentBefore <= |u.client.sent| { HopsAreOld(u, i); }
    JoinSecrets(u, t);
  }

  lemma JoinSecrets(u: System, t: System)
    requires WellShaped(u) && WellShaped(t) && Secrets(u)
    requires t.relays == u.relays && t.seals == u.seals && t.used == u.used && t.path == u.path
    requires |t.client.hops| >= |u.client.hops| && t.client.pending.None?
    requires forall j :: 0 <= j < |u.client.hops| ==> t.client.hops[j] == u.client.hops[j]
    ensures SECRETS(t)
  {
    forall j ensures KeysAt(t, j) { assert KeysAt(u, j); }
    forall a, j ensures KeysApart(t, a, j) { assert KeysApart(u, a, j); }
    forall m: nat ensures SealAt(t, m) {
      assert SealAt(u, m);
      if m < |u.seals| {
        var j: nat :| SealedBy(u, u.seals[m], j);
        assert SealedBy(t, t.seals[m], j);
      }
    }
  }

  lemma ClientReceiveKeeps(s: System)
    requires Inv(s) && Enabled(s, ClientReceive)
    ensures INVARIANT(Apply(s, ClientReceive))
  {
    var u := Received(s);
    var t := Apply(s, ClientReceive);
    ReceivedKeeps(s);
    assert forall j :: 0 <= j < Hops(s) ==> Taken(u, j) == Taken(s, j);
    assert |s.client.got| < |s.returned|;
    var cmd := ClientOpened(s);
    if Reporting(s) {
      assert CanJoin(u, cmd.pub, cmd.nonce);
      JoinKeeps(u, cmd.pub, cmd.nonce);
    } else if Refusing(s) {
      SameRunning(u, t);
      assert forall j :: 0 <= j < Hops(s) ==> Taken(t, j) == Taken(s, j);
      assert Resting(t);
    } else {
      assert Resting(s);
      assert Resting(t);
    }
  }

  // ---------------------------------------------------------------- the first hop and new keys

  lemma ClientCreateKeeps(s: System, priv: Priv, nonce: Nonce)
    requires Inv(s) && Enabled(s, ClientCreate(priv, nonce))
    ensures INVARIANT(Apply(s, ClientCreate(priv, nonce)))
  {
    var t := Apply(s, ClientCreate(priv, nonce));
    assert Resting(s);
    var u := s.(client := t.client, used := t.used);
    SameRunning(s, u);
    AddCreate(u, t);
    assert Creating(t);
  }

  lemma ClientCreatedKeeps(s: System)
    requires Inv(s) && Enabled(s, ClientCreated)
    ensures INVARIANT(Apply(s, ClientCreated))
  {
    var u := s.(rev := Pop(s.rev, 0));
    var t := Apply(s, ClientCreated);
    assert Answering(s);
    DropAnswer(s, u);
    JoinKeeps(u, s.rev[0][0].pub, s.rev[0][0].nonce);
  }

  /** The CREATED in front of the last hop is not yet part of the flow. */
  lemma DropAnswer(s: System, u: System)
    requires WellShaped(s) && Flow(s) && Secrets(s) && Hops(s) < |s.path|
    requires WellShaped(u) && u == s.(rev := u.rev)
    requires forall j :: 0 <= j < |s.path| && j != Hops(s) ==> u.rev[j] == s.rev[j]
    ensures SOUND(u)
  {
    forall j ensures UntouchedAt(u, j) { assert UntouchedAt(s, j); }
    SameFlow(s, u);
    SecretsSame(s, u);
  }

  lemma RelayCreateKeeps(s: System, i: nat, priv: Priv, nonce: Nonce)
    requires Inv(s) && Enabled(s, RelayCreate(i, priv, nonce))
    ensures INVARIANT(Apply(s, RelayCreate(i, priv, nonce)))
  {
    var t := Apply(s, RelayCreate(i, priv, nonce));
    assert UntouchedAt(s, i) && HopAt(s, i);
    assert i == Hops(s);
    assert Creating(s);
    assert s.fwd[i] == [Create(Pub(s.client.pending.value.priv), s.client.pending.value.nonce)];
    forall j ensures UntouchedAt(t, j) { assert UntouchedAt(s, j); }
    SameFlow(s, t);
    NewRelaySecrets(s, t, i, priv, nonce);
    assert forall j :: 0 <= j < Hops(s) ==> Taken(t, j) == Taken(s, j);
    assert DeriveHop(priv, Pub(s.client.pending.value.priv), s.client.pending.value.nonce, nonce)
        == DeriveHop(s.client.pending.value.priv, Pub(priv), s.client.pending.value.nonce, nonce) by {
      assert {priv, s.client.pending.value.priv} == {s.client.pending.value.priv, priv};
    }
    assert Answering(t);
  }

  lemma NewRelaySecrets(s: System, t: System, i: nat, priv: Priv, nonce: Nonce)
    requires Inv(s) && Enabled(s, RelayCreate(i, priv, nonce)) && t == Apply(s, RelayCreate(i, priv, nonce))
    requires s.client.pending.Some? && s.fwd[i][0].pub.priv == s.client.pending.value.priv
    ensures SECRETS(t)
  {
    forall j ensures KeysAt(t, j) { assert KeysAt(s, j); }
    forall a, j ensures KeysApart(t, a, j) {
      assert KeysApart(s, a, j) && KeysAt(s, a) && KeysAt(s, j);
      if a == i || j == i {
        assert priv in t.relays[i].fwdKey.shared && priv !in s.used;
      }
    }
    forall m: nat ensures SealAt(t, m) {
      assert SealAt(s, m);
      if m < |s.seals| {
        var j: nat :| SealedBy(s, s.seals[m], j);
        assert SealedBy(t, t.seals[m], j);
      }
    }
  }

  lemma SetOutgoing(v: System, u: System, i: nat)
    requires WellShaped(v) && Flow(v) && Secrets(v) && i + 1 == Hops(v) <= |v.path| && v.relays[i].On?
    requires u == v.(relays := v.relays[i := v.relays[i].(outgoing := true)])
    ensures SOUND(u)
  {
    forall j ensures UntouchedAt(u, j) { assert UntouchedAt(v, j); }
    SameFlow(v, u);
    SecretsSame(v, u);
  }

  /** The relay that waits for an answer is the last hop, and nothing is in flight before it. */
  lemma AnswerIsForLast(s: System, i: nat)
    requires Inv(s) && Enabled(s, RelayExtended(i))
    ensures i + 1 == Hops(s) && Answering(s)
  {
    assert UntouchedAt(s, i + 1) && RevAt(s, i + 1, 0);
  }

  lemma ExtendedFlow(s: System, u: System, i: nat)
    requires Inv(s) && Enabled(s, RelayExtended(i)) && i + 1 == Hops(s) && Answering(s)
    requires u == s.(rev := Pop(s.rev, i + 1), relays := s.relays[i := s.relays[i].(outgoing := true)])
    ensures SOUND(u)
  {
    var v := s.(rev := Pop(s.rev, i + 1));
    DropAnswer(s, v);
    SetOutgoing(v, u, i);
  }

  lemma ExtendedKeeps(s: System, i: nat)
    requires Inv(s) && Enabled(s, RelayExtended(i))
    ensures INVARIANT(Apply(s, RelayExtended(i)))
  {
    var k := Hops(s);
    var t := Apply(s, RelayExtended(i));
    AnswerIsForLast(s, i);
    var c := s.rev[k][0];
    var u := s.(rev := Pop(s.rev, k), relays := s.relays[i := s.relays[i].(outgoing := true)]);
    ExtendedFlow(s, u, i);
    ReturnKeepsFlow(u, Extended(c.pub, c.nonce));
    assert forall j :: 0 <= j < k ==> Taken(t, j) == Taken(s, j);
    assert Reporting(t);
  }

  // ---------------------------------------------------------------- every run

  lemma StepKeeps(s: System, step: Step)
    requires Inv(s) && Enabled(s, step)
    ensures INVARIANT(Apply(s, step))
  {
    match step
    case ClientCreate(priv, nonce) => ClientCreateKeeps(s, priv, nonce);
    case RelayCreate(i, priv, nonce) => RelayCreateKeeps(s, i, priv, nonce);
    case ClientCreated => ClientCreatedKeeps(s);
    case ClientExtend(priv, nonce) => ClientExtendKeeps(s, priv, nonce);
    case RelayForward(i) => if s.relays[i].outgoing { PassKeeps(s, i); } else { DeliverKeeps(s, i); }
    case RelayRefuse(i, reason) => RefuseKeeps(s, i, reason);
    case RelayExtended(i) => ExtendedKeeps(s, i);
    case RelayReverse(i) => ReverseKeeps(s, i);
    case ClientReceive => ClientReceiveKeeps(s);
    case ClientSend(cmd) => ClientSendKeeps(s, cmd);
    case TerminalSend(cmd) => TerminalSendKeeps(s, cmd);
  }

  lemma InitialHolds(s: System)
    requires Initial(s)
    ensures INVARIANT(s)
  {
    assert Resting(s);
  }

  lemma {:induction false} RunKeeps(s: System, steps: seq<Step>, t: System)
    requires Inv(s) && Runs(s, steps, t)
    ensures INVARIANT(t)
    decreases |steps|
  {
    if steps != [] {
      StepKeeps(s, steps[0]);
      RunKeeps(Apply(s, steps[0]), steps[1..], t);
    }
  }
}
