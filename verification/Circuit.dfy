/** One honest circuit as a state machine: the client, the relays of its path in order, and the
    frame queues of the links between them. The client grows the circuit hop by hop and then
    exchanges commands with the last relay.

    Link `j` joins relay `j` to the node before it (the client for `j == 0`); `fwd[j]` and
    `rev[j]` are its two directions. */
module Circuit {
  import opened Common
  import opened NodeId
  import opened Onion

  /** What a relay keeps; `received` and `log` are the commands it acted on and originated. */
  datatype RelayState =
    | Off
    | On(fwdKey: Key, revKey: Key, fwdSeq: nat, revSeq: nat, outgoing: bool, received: seq<Command>)

  datatype Pending = Pending(priv: Priv, nonce: Nonce)

  /** `sent` and `got` are all commands the client has sent to and received from the circuit. */
  datatype Client = Client(hops: seq<Hop>, pending: Option<Pending>, failed: bool,
                           sent: seq<Command>, got: seq<Command>)

  /** A hop of the client: its keys, and how many commands had been sent and received by then. */
  datatype Join = Join(fwdKey: Key, revKey: Key, sentBefore: nat, gotBefore: nat)

  /** `returned` are all commands the relays have originated towards the client; `used` all
      ephemeral keys ever drawn; `seals` every (key, sequence number) ever sealed under; `joins`
      tells when every hop joined. */
  datatype System = System(path: seq<Id>, client: Client, relays: seq<RelayState>,
                           fwd: seq<seq<Cell>>, rev: seq<seq<Cell>>,
                           returned: seq<Command>, used: set<Priv>, seals: seq<(Key, nat)>, joins: seq<Join>)

  predicate WellShaped(s: System) {
    |s.path| >= 1 && |s.relays| == |s.fwd| == |s.rev| == |s.path| && |s.client.hops| <= |s.path|
  }

  function Push(qs: seq<seq<Cell>>, j: nat, c: Cell): (r: seq<seq<Cell>>)
    requires j < |qs|
    ensures |r| == |qs|
  {
    qs[j := qs[j] + [c]]
  }

  function Pop(qs: seq<seq<Cell>>, j: nat): (r: seq<seq<Cell>>)
    requires j < |qs| && |qs[j]| > 0
    ensures |r| == |qs|
  {
    qs[j := qs[j][1..]]
  }

  datatype Step =
    | ClientCreate(priv: Priv, nonce: Nonce)
    | RelayCreate(i: nat, priv: Priv, nonce: Nonce)
    | ClientCreated
    | ClientExtend(priv: Priv, nonce: Nonce)
    | RelayForward(i: nat)
    | RelayRefuse(i: nat, reason: seq<Byte>)
    | RelayExtended(i: nat)
    | RelayReverse(i: nat)
    | ClientReceive
    | ClientSend(cmd: Command)
    | TerminalSend(cmd: Command)

  /** A relay cell is waiting at relay `i` and opens under the expected key and number. */
  predicate Opens(s: System, i: nat)
    requires WellShaped(s)
  {
    && i < |s.path| && s.relays[i].On? && |s.fwd[i]| > 0 && s.fwd[i][0].Relay?
    && OpenLayer(s.relays[i].fwdKey, s.relays[i].fwdSeq, s.fwd[i][0].layer).Some?
  }

  function Opened(s: System, i: nat): Layer
    requires WellShaped(s) && Opens(s, i)
  {
    OpenLayer(s.relays[i].fwdKey, s.relays[i].fwdSeq, s.fwd[i][0].layer).value
  }

  /** Relay `i` is the last one and has just opened an EXTEND. */
  predicate OpensExtend(s: System, i: nat)
    requires WellShaped(s)
  {
    Opens(s, i) && !s.relays[i].outgoing && Opened(s, i).Plain? && Opened(s, i).cmd.Extend?
  }

  /** A relay cell is waiting at the client and all its layers open. */
  predicate ClientOpens(s: System)
    requires WellShaped(s)
  {
    && |s.rev[0]| > 0 && s.rev[0][0].Relay?
    && Unwrap(s.client.hops, 0, s.rev[0][0].layer).Some?
    && Unwrap(s.client.hops, 0, s.rev[0][0].layer).value.Plain?
  }

  function ClientOpened(s: System): Command
    requires WellShaped(s) && ClientOpens(s)
  {
    Unwrap(s.client.hops, 0, s.rev[0][0].layer).value.cmd
  }

  predicate Enabled(s: System, step: Step)
    requires WellShaped(s)
  {
    var k := |s.client.hops|;
    match step
    case ClientCreate(priv, _) => k == 0 && s.client.pending.None? && !s.client.failed && priv !in s.used
    case RelayCreate(i, priv, _) =>
      i < |s.path| && s.relays[i].Off? && |s.fwd[i]| > 0 && s.fwd[i][0].Create? && priv !in s.used
    case ClientCreated => k == 0 && s.client.pending.Some? && |s.rev[0]| > 0 && s.rev[0][0].Created?
    case ClientExtend(priv, _) => 0 < k < |s.path| && s.client.pending.None? && !s.client.failed && priv !in s.used
    case RelayForward(i) =>
      Opens(s, i) && if s.relays[i].outgoing then i + 1 < |s.path|
                     else Opened(s, i).Plain? && (Opened(s, i).cmd.Extend? ==> i + 1 < |s.path|)
    case RelayRefuse(i, _) => OpensExtend(s, i)
    case RelayExtended(i) => i + 1 < |s.path| && s.relays[i].On? && |s.rev[i + 1]| > 0 && s.rev[i + 1][0].Created?
    case RelayReverse(i) => i + 1 < |s.path| && s.relays[i].On? && |s.rev[i + 1]| > 0 && s.rev[i + 1][0].Relay?
    case ClientReceive => k > 0 && ClientOpens(s)
    case ClientSend(cmd) => k == |s.path| && !s.client.failed && (cmd.Open? || cmd.Data? || cmd.Close?)
    case TerminalSend(cmd) =>
      && (cmd.OpenOK? || cmd.OpenError? || cmd.Data? || cmd.Close?)
      && s.relays[|s.path| - 1].On?
      && exists c :: c in s.relays[|s.path| - 1].received && c.Open?
  }

  /** The client wraps one command for all its hops and puts it on the first link. */
  function SendRelay(s: System, cmd: Command): System
    requires WellShaped(s)
  {
    s.(client := s.client.(hops := AfterSend(s.client.hops), sent := s.client.sent + [cmd]),
       fwd := Push(s.fwd, 0, Relay(Wrap(s.client.hops, 0, cmd))),
       seals := s.seals + WrapSeals(s.client.hops))
  }

  /** Relay `i` opens the waiting cell and counts it; the cell leaves the link. */
  function TakeForward(s: System, i: nat): System
    requires WellShaped(s) && Opens(s, i)
  {
    s.(relays := s.relays[i := s.relays[i].(fwdSeq := s.relays[i].fwdSeq + 1)], fwd := Pop(s.fwd, i))
  }

  /** Relay `i` adds its layer to a reverse layer and sends it towards the client. */
  function SendReverse(s: System, i: nat, inner: Layer): System
    requires WellShaped(s) && i < |s.path| && s.relays[i].On?
  {
    var r := s.relays[i];
    s.(relays := s.relays[i := r.(revSeq := r.revSeq + 1)],
       rev := Push(s.rev, i, Relay(Sealed(r.revKey, r.revSeq, inner))),
       seals := s.seals + [(r.revKey, r.revSeq)])
  }

  /** Relay `i` originates a command of its own. */
  function Return(s: System, i: nat, cmd: Command): System
    requires WellShaped(s) && i < |s.path| && s.relays[i].On?
  {
    SendReverse(s, i, Plain(cmd)).(returned := s.returned + [cmd])
  }

  function Receive(r: RelayState, cmd: Command): RelayState
    requires r.On?
  {
    r.(received := r.received + [cmd])
  }

  function Apply(s: System, step: Step): System
    requires WellShaped(s) && Enabled(s, step)
  {
    match step
    case ClientCreate(priv, nonce) =>
      s.(client := s.client.(pending := Some(Pending(priv, nonce))),
         fwd := Push(s.fwd, 0, Create(Pub(priv), nonce)), used := s.used + {priv})
    case RelayCreate(i, priv, nonce) =>
      var c := s.fwd[i][0];
      var keys := DeriveHop(priv, c.pub, c.nonce, nonce);
      s.(relays := s.relays[i := On(keys.fwd, keys.rev, 0, 0, false, [])],
         fwd := Pop(s.fwd, i), rev := Push(s.rev, i, Created(Pub(priv), nonce)), used := s.used + {priv})
    case ClientCreated =>
      AddHop(s.(rev := Pop(s.rev, 0)), s.rev[0][0].pub, s.rev[0][0].nonce)
    case ClientExtend(priv, nonce) =>
      var t := SendRelay(s, Extend(s.path[|s.client.hops|], Pub(priv), nonce));
      t.(client := t.client.(pending := Some(Pending(priv, nonce))), used := s.used + {priv})
    case RelayForward(i) =>
      var inner := Opened(s, i);
      var t := TakeForward(s, i);
      if s.relays[i].outgoing then t.(fwd := Push(t.fwd, i + 1, Relay(inner)))
      else
        var u := t.(relays := t.relays[i := Receive(t.relays[i], inner.cmd)]);
        if inner.cmd.Extend? then u.(fwd := Push(u.fwd, i + 1, Create(inner.cmd.pub, inner.cmd.nonce))) else u
    case RelayRefuse(i, reason) =>
      var inner := Opened(s, i);
      var t := TakeForward(s, i);
      Return(t.(relays := t.relays[i := Receive(t.relays[i], inner.cmd)]), i, OpenError(reason))
    case RelayExtended(i) =>
      var c := s.rev[i + 1][0];
      Return(s.(rev := Pop(s.rev, i + 1), relays := s.relays[i := s.relays[i].(outgoing := true)]), i, Extended(c.pub, c.nonce))
    case RelayReverse(i) =>
      SendReverse(s.(rev := Pop(s.rev, i + 1)), i, s.rev[i + 1][0].layer)
    case ClientReceive =>
      var cmd := ClientOpened(s);
      var c := s.client.(hops := AfterReceive(s.client.hops), got := s.client.got + [cmd]);
      var t := s.(client := c, rev := Pop(s.rev, 0));
      if c.pending.Some? && cmd.Extended? && |c.hops| < |s.path| then AddHop(t, cmd.pub, cmd.nonce)
      else if c.pending.Some? && cmd.OpenError? then t.(client := c.(pending := None, failed := true))
      else t
    case ClientSend(cmd) => SendRelay(s, cmd)
    case TerminalSend(cmd) => Return(s, |s.path| - 1, cmd)
  }

  /** The client derives the keys of the new hop and counts both directions from zero. */
  function AddHop(s: System, pub: Pub, serverNonce: Nonce): System
    requires s.client.pending.Some?
  {
    var c := s.client;
    var keys := DeriveHop(c.pending.value.priv, pub, c.pending.value.nonce, serverNonce);
    s.(client := c.(hops := c.hops + [Hop(keys.fwd, keys.rev, 0, 0)], pending := None),
       joins := s.joins + [Join(keys.fwd, keys.rev, |c.sent|, |c.got|)])
  }

  predicate Initial(s: System) {
    && WellShaped(s)
    && s.client == Client([], None, false, [], [])
    && (forall j :: 0 <= j < |s.path| ==> s.relays[j] == Off && s.fwd[j] == [] && s.rev[j] == [])
    && s.returned == [] && s.seals == [] && s.joins == []
  }

  ghost predicate Runs(s: System, steps: seq<Step>, t: System)
    decreases |steps|
  {
    if steps == [] then s == t
    else WellShaped(s) && Enabled(s, steps[0]) && Runs(Apply(s, steps[0]), steps[1..], t)
  }
}
