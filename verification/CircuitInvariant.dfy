/** What every honest run of a circuit keeps. Cells are numbered by the position of their command
    in the list of all commands sent (or returned); the invariant says which numbers wait on which
    link and which layers they still have. */
module CircuitInvariant {
  import opened Common
  import opened NodeId
  import opened Onion
  import opened Circuit

  /** What is left of command number `n` when it waits in front of relay `j`. */
  function Expected(joins: seq<Join>, sent: seq<Command>, n: nat, j: nat): Layer
    requires j <= |joins| && n < |sent| && forall i :: j <= i < |joins| ==> joins[i].sentBefore <= n
    decreases |joins| - j
  {
    if j == |joins| then Plain(sent[n])
    else Sealed(joins[j].fwdKey, n - joins[j].sentBefore, Expected(joins, sent, n, j + 1))
  }

  /** What returned command number `n` looks like once relay `j` has wrapped it. */
  function ExpectedBack(joins: seq<Join>, returned: seq<Command>, n: nat, j: nat): Layer
    requires j <= |joins| && n < |returned| && forall i :: j <= i < |joins| ==> joins[i].gotBefore <= n
    decreases |joins| - j
  {
    if j == |joins| then Plain(returned[n])
    else Sealed(joins[j].revKey, n - joins[j].gotBefore, ExpectedBack(joins, returned, n, j + 1))
  }

  lemma {:induction false} ExpectedGrows(joins: seq<Join>, sent: seq<Command>, more: seq<Command>, n: nat, j: nat)
    requires j <= |joins| && n < |sent| && forall i :: j <= i < |joins| ==> joins[i].sentBefore <= n
    ensures Expected(joins, sent + more, n, j) == Expected(joins, sent, n, j)
    decreases |joins| - j
  {
    if j < |joins| {
      ExpectedGrows(joins, sent, more, n, j + 1);
    }
  }

  lemma {:induction false} ExpectedBackGrows(joins: seq<Join>, returned: seq<Command>, more: seq<Command>, n: nat, j: nat)
    requires j <= |joins| && n < |returned| && forall i :: j <= i < |joins| ==> joins[i].gotBefore <= n
    ensures ExpectedBack(joins, returned + more, n, j) == ExpectedBack(joins, returned, n, j)
    decreases |joins| - j
  {
    if j < |joins| {
      ExpectedBackGrows(joins, returned, more, n, j + 1);
    }
  }

  // ---------------------------------------------------------------- numbering

  function Hops(s: System): nat { |s.joins| }

  /** The number of the next command relay `j` will open; before relay 0 stands the client. */
  function Taken(s: System, j: int): int
    requires WellShaped(s)
  {
    if 0 <= j < |s.joins| && j < |s.path| && s.relays[j].On? then s.joins[j].sentBefore + s.relays[j].fwdSeq
    else |s.client.sent|
  }

  /** The number of the next returned command relay `j` will wrap; the client opens at -1. */
  function Wrapped(s: System, j: int): int
    requires WellShaped(s)
  {
    if 0 <= j < |s.joins| && j < |s.path| && s.relays[j].On? then s.joins[j].gotBefore + s.relays[j].revSeq
    else |s.client.got|
  }

  // ---------------------------------------------------------------- established hops

  /** Both ends of hop `j` hold the same keys; the client's counters follow from when it joined. */
  ghost predicate HopAt(s: System, j: nat)
    requires WellShaped(s)
  {
    j < Hops(s) ==>
      && j < |s.client.hops| && j < |s.path|
      && var h := s.client.hops[j];
         var r := s.relays[j];
         var b := s.joins[j];
         && r.On? && r.fwdKey == h.fwdKey == b.fwdKey && r.revKey == h.revKey == b.revKey
         && h.sendSeq == |s.client.sent| - b.sentBefore
         && h.recvSeq == |s.client.got| - b.gotBefore
  }

  /** Link `j` holds exactly the cells between what the two nodes beside it have handled. */
  ghost predicate LinkAt(s: System, j: nat)
    requires WellShaped(s)
  {
    j < Hops(s) && j < |s.path| ==>
      && |s.fwd[j]| == Taken(s, j - 1) - Taken(s, j)
      && |s.rev[j]| == Wrapped(s, j) - Wrapped(s, j - 1)
      && Taken(s, j) <= |s.client.sent| && |s.client.got| <= Wrapped(s, j) <= |s.returned|
  }

  /** A hop joins only when nothing is in flight, so what is in flight is newer than every hop. */
  ghost predicate NewerAt(s: System, i: nat, j: nat)
    requires WellShaped(s)
  {
    i < Hops(s) && j < Hops(s) ==> s.joins[i].sentBefore <= Taken(s, j) && s.joins[i].gotBefore <= |s.client.got|
  }

  ghost predicate JoinsInOrder(s: System) {
    forall i, j :: 0 <= i <= j < |s.joins| ==> s.joins[i].sentBefore <= s.joins[j].sentBefore
  }

  ghost predicate FwdAt(s: System, j: nat, p: nat)
    requires WellShaped(s)
  {
    j < Hops(s) && j < |s.path| && p < |s.fwd[j]| ==>
      var n := Taken(s, j) + p;
      && 0 <= n < |s.client.sent| && (forall i :: 0 <= i < |s.joins| ==> s.joins[i].sentBefore <= n)
      && s.fwd[j][p] == Relay(Expected(s.joins, s.client.sent, n, j))
  }

  ghost predicate RevAt(s: System, j: nat, p: nat)
    requires WellShaped(s)
  {
    j < Hops(s) && j < |s.path| && p < |s.rev[j]| ==>
      var n := Wrapped(s, j - 1) + p;
      && 0 <= n < |s.returned| && (forall i :: 0 <= i < |s.joins| ==> s.joins[i].gotBefore <= n)
      && s.rev[j][p] == Relay(ExpectedBack(s.joins, s.returned, n, j))
  }

  /** A relay that is no longer the last one was given exactly the commands between its own joining
      and the next hop's; the last one, everything since it joined that it has opened. */
  ghost predicate ReceivedAt(s: System, j: nat)
    requires WellShaped(s)
  {
    j < Hops(s) && j < |s.path| && s.relays[j].On? ==>
      var lo := s.joins[j].sentBefore;
      var hi := if j + 1 < Hops(s) then s.joins[j + 1].sentBefore else Taken(s, j);
      0 <= lo <= hi <= |s.client.sent| && s.relays[j].received == s.client.sent[lo..hi]
  }

  ghost predicate OutgoingAt(s: System, j: nat)
    requires WellShaped(s)
  {
    j + 1 < Hops(s) && j < |s.path| ==> s.relays[j].On? && s.relays[j].outgoing
  }

  /** Nothing has happened yet behind the hop being added. */
  ghost predicate UntouchedAt(s: System, j: nat)
    requires WellShaped(s)
  {
    Hops(s) < j < |s.path| ==> s.relays[j].Off? && s.fwd[j] == [] && s.rev[j] == []
  }

  ghost predicate Counted(s: System)
    requires WellShaped(s)
  {
    && |s.joins| == |s.client.hops|
    && (Hops(s) == 0 ==> s.client.sent == [] && s.returned == [] && s.client.got == [])
    && (Hops(s) > 0 ==> Wrapped(s, Hops(s) - 1) == |s.returned|)
    && s.client.got <= s.returned
    && JoinsInOrder(s)
  }

  // ---------------------------------------------------------------- keys and seals

  ghost predicate KeysAt(s: System, j: nat)
    requires WellShaped(s)
  {
    j < |s.path| && s.relays[j].On? ==>
      var r := s.relays[j];
      r.fwdKey.forward && !r.revKey.forward && r.fwdKey.shared == r.revKey.shared && r.fwdKey.shared <= s.used
  }

  ghost predicate KeysApart(s: System, i: nat, j: nat)
    requires WellShaped(s)
  {
    i < |s.path| && j < |s.path| && i != j && s.relays[i].On? && s.relays[j].On? ==>
      s.relays[i].fwdKey.shared != s.relays[j].fwdKey.shared
  }

  /** A seal was made by one of the two parties of a hop, below its counter. */
  ghost predicate SealedBy(s: System, x: (Key, nat), j: nat)
    requires WellShaped(s)
  {
    && j < |s.path| && s.relays[j].On?
    && ((x.0 == s.relays[j].fwdKey && j < |s.client.hops| && x.1 < s.client.hops[j].sendSeq)
        || (x.0 == s.relays[j].revKey && x.1 < s.relays[j].revSeq))
  }

  ghost predicate SealAt(s: System, m: nat)
    requires WellShaped(s)
  {
    m < |s.seals| ==> exists j: nat :: SealedBy(s, s.seals[m], j)
  }

  // ---------------------------------------------------------------- where the building stands

  ghost predicate NextOff(s: System)
    requires WellShaped(s)
  {
    var k := Hops(s);
    k < |s.path| ==> s.relays[k].Off? && s.fwd[k] == [] && s.rev[k] == []
  }

  ghost predicate FwdDrained(s: System)
    requires WellShaped(s)
  {
    forall j :: 0 <= j < Hops(s) ==> Taken(s, j) == |s.client.sent|
  }

  ghost predicate RevDrained(s: System)
    requires WellShaped(s)
  {
    |s.returned| == |s.client.got|
  }

  ghost predicate LastOutgoing(s: System, b: bool)
    requires WellShaped(s)
  {
    0 < Hops(s) <= |s.path| ==> s.relays[Hops(s) - 1].On? && s.relays[Hops(s) - 1].outgoing == b
  }

  /** The relay that is about to become a hop: it has made its keys and counted nothing. */
  ghost predicate NextReady(s: System, pub: Pub, nonce: Nonce)
    requires WellShaped(s)
  {
    var k := Hops(s);
    && k < |s.path| && s.client.pending.Some? && s.relays[k].On?
    && var keys := DeriveHop(s.client.pending.value.priv, pub, s.client.pending.value.nonce, nonce);
       s.relays[k] == On(keys.fwd, keys.rev, 0, 0, false, [])
  }

  ghost predicate Building(s: System, outgoing: bool)
    requires WellShaped(s)
  {
    Hops(s) < |s.path| && s.client.pending.Some? && !s.client.failed && LastOutgoing(s, outgoing)
  }

  /** Built as far as it goes, with no extension under way. */
  ghost predicate Resting(s: System)
    requires WellShaped(s)
  {
    && s.client.pending.None? && NextOff(s) && LastOutgoing(s, false)
    && (Hops(s) < |s.path| ==> FwdDrained(s) && RevDrained(s))
    && (s.client.failed ==> Hops(s) < |s.path|)
    && (Hops(s) == |s.path| ==>
          forall n :: 0 <= s.joins[Hops(s) - 1].sentBefore <= n < |s.client.sent| ==> !s.client.sent[n].Extend?)
  }

  /** The EXTEND is the only command in flight. */
  ghost predicate Extending(s: System)
    requires WellShaped(s)
  {
    && Building(s, false) && Hops(s) > 0 && NextOff(s) && RevDrained(s)
    && Taken(s, Hops(s) - 1) == |s.client.sent| - 1
    && s.client.sent[|s.client.sent| - 1] == Extend(s.path[Hops(s)], Pub(s.client.pending.value.priv), s.client.pending.value.nonce)
  }

  /** The CREATE waits in front of the next relay. */
  ghost predicate Creating(s: System)
    requires WellShaped(s)
  {
    var k := Hops(s);
    && Building(s, false) && FwdDrained(s) && RevDrained(s)
    && s.relays[k].Off? && s.rev[k] == []
    && s.fwd[k] == [Create(Pub(s.client.pending.value.priv), s.client.pending.value.nonce)]
  }

  /** The CREATED waits in front of the last hop, or of the client if there is none yet. */
  ghost predicate Answering(s: System)
    requires WellShaped(s)
  {
    var k := Hops(s);
    && Building(s, false) && FwdDrained(s) && RevDrained(s)
    && s.fwd[k] == [] && |s.rev[k]| == 1 && s.rev[k][0].Created?
    && NextReady(s, s.rev[k][0].pub, s.rev[k][0].nonce)
  }

  /** The EXTENDED is the only returned command in flight. */
  ghost predicate Reporting(s: System)
    requires WellShaped(s)
  {
    var k := Hops(s);
    && Building(s, true) && k > 0 && FwdDrained(s)
    && s.fwd[k] == [] && s.rev[k] == []
    && |s.returned| == |s.client.got| + 1
    && var c := s.returned[|s.client.got|];
       c.Extended? && NextReady(s, c.pub, c.nonce)
  }

  /** The refusal is the only returned command in flight. */
  ghost predicate Refusing(s: System)
    requires WellShaped(s)
  {
    && Building(s, false) && Hops(s) > 0 && FwdDrained(s) && NextOff(s)
    && |s.returned| == |s.client.got| + 1 && s.returned[|s.client.got|].OpenError?
  }

  ghost predicate Stage(s: System)
    requires WellShaped(s)
  {
    Resting(s) || Extending(s) || Creating(s) || Answering(s) || Reporting(s) || Refusing(s)
  }

  ghost predicate Flow(s: System)
    requires WellShaped(s)
  {
    && Counted(s)
    && (forall j :: HopAt(s, j)) && (forall j :: LinkAt(s, j)) && (forall i, j :: NewerAt(s, i, j))
    && (forall j, p :: FwdAt(s, j, p)) && (forall j, p :: RevAt(s, j, p))
    && (forall j :: ReceivedAt(s, j)) && (forall j :: OutgoingAt(s, j)) && (forall j :: UntouchedAt(s, j))
  }

  ghost predicate Secrets(s: System)
    requires WellShaped(s)
  {
    && (forall j :: KeysAt(s, j)) && (forall i, j :: KeysApart(s, i, j))
    && (forall m :: SealAt(s, m)) && NoRepeats(s.seals)
    && (s.client.pending.Some? ==> s.client.pending.value.priv in s.used)
  }

  ghost predicate Inv(s: System) {
    WellShaped(s) && Flow(s) && Stage(s) && Secrets(s)
  }

  // ---------------------------------------------------------------- the same as values

  // Each clause, and each group of clauses, as one property that a step keeps as a whole.

  ghost const OPENS: (System, nat) -> bool := (s: System, i: nat) => WellShaped(s) && Opens(s, i)
  ghost const ENABLED: (System, Step) -> bool := (s: System, step: Step) => WellShaped(s) && Enabled(s, step)
  ghost const HOP: (System, nat) -> bool := (s: System, j: nat) => WellShaped(s) && HopAt(s, j)
  ghost const LINK: (System, nat) -> bool := (s: System, j: nat) => WellShaped(s) && LinkAt(s, j)
  ghost const RECEIVED: (System, nat) -> bool := (s: System, j: nat) => WellShaped(s) && ReceivedAt(s, j)
  ghost const OUTGOING: (System, nat) -> bool := (s: System, j: nat) => WellShaped(s) && OutgoingAt(s, j)
  ghost const REST: (System, nat) -> bool :=
    (s: System, j: nat) => WellShaped(s) && ReceivedAt(s, j) && OutgoingAt(s, j) && UntouchedAt(s, j)
  ghost const FWD: (System, nat, nat) -> bool := (s: System, j: nat, p: nat) => WellShaped(s) && FwdAt(s, j, p)
  ghost const REV: (System, nat, nat) -> bool := (s: System, j: nat, p: nat) => WellShaped(s) && RevAt(s, j, p)
  ghost const FLOW: System -> bool := (s: System) => WellShaped(s) && Flow(s)
  ghost const SECRETS: System -> bool := (s: System) => WellShaped(s) && Secrets(s)
  ghost const SOUND: System -> bool := (s: System) => WellShaped(s) && Flow(s) && Secrets(s)
  ghost const INVARIANT: System -> bool := (s: System) => Inv(s)
}
