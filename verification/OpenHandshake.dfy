/** Opening a stream between two nodes: OPEN, ACK (or ERROR), READY, then DATA in both directions,
    over a network that drops, duplicates and reorders packets, with timeouts and closes at any
    moment. An end starts to send data only once the other end has the stream in its table. */
module OpenHandshake {
  import opened NodeId

  /** The two nonces the session keys are derived from. */
  datatype Session = Session(openNonce: nat, ackNonce: nat)

  datatype Stream = Stream(peer: Id, initiator: bool, session: Session)

  datatype OpenResult = NoResult | Acked(src: Id, ackNonce: nat) | Rejected

  /** How far one call that opens a stream has come. */
  datatype Phase = Awaiting(result: OpenResult) | Registered(session: Session) | ReadySent(session: Session)

  datatype Pending = Pending(dst: Id, openNonce: nat, phase: Phase)

  /** What one node keeps per stream ID. */
  datatype Tables = Tables(pending: map<nat, Pending>, streams: map<nat, Stream>)

  const NO_TABLES := Tables(map[], map[])

  datatype Message =
    | Open(src: Id, dst: Id, id: nat, openNonce: nat)
    | Ack(src: Id, dst: Id, id: nat, ackNonce: nat)
    | Error(src: Id, dst: Id, id: nat)
    | Ready(src: Id, dst: Id, id: nat)
    | Data(src: Id, dst: Id, id: nat, session: Session)
    | Close(src: Id, dst: Id, id: nat)

  /** A stream that some node had in its table. */
  datatype Entry = Entry(node: Id, id: nat, peer: Id, session: Session)

  /** What a handler does: the new tables, packets sent, streams registered and closed, and pumps
      (the loops that read the local endpoint and send data) started. */
  datatype Effect = Effect(tables: Tables, sent: set<Message>, registers: set<Entry>, closes: set<Entry>, pumps: set<Entry>)

  function Only(t: Tables): Effect { Effect(t, {}, {}, {}, {}) }

  function EntryOf(node: Id, id: nat, s: Stream): Entry { Entry(node, id, s.peer, s.session) }

  // ---------------------------------------------------------------- handlers of one node

  function Begin(self: Id, t: Tables, id: nat, dst: Id, nonce: nat): Effect {
    Only(t.(pending := t.pending[id := Pending(dst, nonce, Awaiting(NoResult))]))
      .(sent := {Open(self, dst, id, nonce)})
  }

  /** The call returns, for whatever reason. */
  function Abandon(t: Tables, id: nat): Effect { Only(t.(pending := t.pending - {id})) }

  /** A reply for a pending call; the channel holds one and drops the rest. */
  function Reply(t: Tables, id: nat, r: OpenResult): Effect {
    if id in t.pending && t.pending[id].phase == Awaiting(NoResult) then
      Only(t.(pending := t.pending[id := t.pending[id].(phase := Awaiting(r))]))
    else Only(t)
  }

  /** The caller looks at the reply. An acknowledgement from the destination that verifies puts the
      stream into the table; any other ends the call. */
  function Resume(self: Id, t: Tables, id: nat, verifies: bool): Effect {
    if id in t.pending && t.pending[id].phase.Awaiting? && t.pending[id].phase.result != NoResult then
      var p := t.pending[id];
      var r := p.phase.result;
      if r.Acked? && r.src == p.dst && verifies then
        var s := Stream(p.dst, true, Session(p.openNonce, r.ackNonce));
        Effect(Tables(t.pending[id := p.(phase := Registered(s.session))], t.streams[id := s]), {}, {EntryOf(self, id, s)}, {}, {})
      else Abandon(t, id)
    else Only(t)
  }

  function CloseLocal(self: Id, t: Tables, id: nat, notify: bool): Effect {
    if id in t.streams then
      Only(t.(streams := t.streams - {id}))
        .(sent := if notify then {Close(self, t.streams[id].peer, id)} else {}, closes := {EntryOf(self, id, t.streams[id])})
    else Only(t)
  }

  /** READY leaves; when sending it fails the stream is closed and the call ends. */
  function SendReady(self: Id, t: Tables, id: nat, fails: bool): Effect {
    if id in t.pending && t.pending[id].phase.Registered? then
      var p := t.pending[id];
      var ready := {Ready(self, p.dst, id)};
      if fails then
        var c := CloseLocal(self, t, id, false);
        c.(tables := c.tables.(pending := t.pending - {id}), sent := ready)
      else Only(t.(pending := t.pending[id := p.(phase := ReadySent(p.phase.session))])).(sent := ready)
    else Only(t)
  }

  /** The caller starts its pump and returns. */
  function StartPump(self: Id, t: Tables, id: nat): Effect {
    if id in t.pending && t.pending[id].phase.ReadySent? then
      var p := t.pending[id];
      Abandon(t, id).(pumps := {Entry(self, id, p.dst, p.phase.session)})
    else Only(t)
  }

  datatype Verdict = Refuse | Accept(ackNonce: nat)

  function HandleOpen(self: Id, t: Tables, m: Message, v: Verdict): Effect
    requires m.Open?
  {
    if v.Refuse? || m.id in t.streams then Only(t).(sent := {Error(self, m.src, m.id)})
    else
      var s := Stream(m.src, false, Session(m.openNonce, v.ackNonce));
      Effect(t.(streams := t.streams[m.id := s]), {Ack(self, m.src, m.id, v.ackNonce)}, {EntryOf(self, m.id, s)}, {}, {})
  }

  /** Any packet for this node. */
  function HandleLocal(self: Id, t: Tables, m: Message, v: Verdict): Effect {
    match m
    case Open(_, _, _, _) => HandleOpen(self, t, m, v)
    case Ack(src, _, id, a) => Reply(t, id, Acked(src, a))
    case Error(src, _, id) => Reply(t, id, Rejected)
    case Ready(src, _, id) =>
      if id in t.streams && t.streams[id].peer == src then Only(t).(pumps := {EntryOf(self, id, t.streams[id])}) else Only(t)
    case Data(_, _, _, _) => Only(t)
    case Close(_, _, id) => CloseLocal(self, t, id, false)
  }

  // ---------------------------------------------------------------- the handlers as the program has them

  class Node {
    const self: Id
    var pending: map<nat, Pending>
    var streams: map<nat, Stream>

    constructor (self: Id)
      ensures this.self == self && TablesOf() == NO_TABLES
    {
      this.self := self;
      pending, streams := map[], map[];
    }

    function TablesOf(): Tables
      reads this
    {
      Tables(pending, streams)
    }

    method Close(id: nat, notify: bool) returns (sent: set<Message>)
      modifies this
      ensures var e := CloseLocal(self, old(TablesOf()), id, notify); TablesOf() == e.tables && sent == e.sent
    {
      sent := {};
      if id in streams {
        if notify {
          sent := {Message.Close(self, streams[id].peer, id)};
        }
        streams := streams - {id};
      }
    }

    /** What is sent in reply, and the streams whose pumps start. */
    method HandleLocalPacket(m: Message, v: Verdict) returns (sent: set<Message>, pumps: set<Entry>)
      modifies this
      ensures var e := HandleLocal(self, old(TablesOf()), m, v);
              TablesOf() == e.tables && sent == e.sent && pumps == e.pumps
    {
      sent, pumps := {}, {};
      match m
      case Open(src, _, id, nonce) =>
        if v.Refuse? || id in streams {
          sent := {Error(self, src, id)};
        } else {
          streams := streams[id := Stream(src, false, Session(nonce, v.ackNonce))];
          sent := {Ack(self, src, id, v.ackNonce)};
        }
      case Ack(src, _, id, a) =>
        Deposit(id, Acked(src, a));
      case Error(src, _, id) =>
        Deposit(id, Rejected);
      case Ready(src, _, id) =>
        if id in streams && streams[id].peer == src {
          pumps := {EntryOf(self, id, streams[id])};
        }
      case Data(_, _, _, _) =>
      case Close(_, _, id) =>
        sent := this.Close(id, false);
    }

    /** The opening call up to the point where it waits for a reply. */
    method StartOpen(id: nat, dst: Id, nonce: nat) returns (sent: set<Message>)
      modifies this`pending
      ensures var e := Begin(self, old(TablesOf()), id, dst, nonce); TablesOf() == e.tables && sent == e.sent
    {
      pending := pending[id := Pending(dst, nonce, Awaiting(NoResult))];
      sent := {Open(self, dst, id, nonce)};
    }

    /** The same call once the reply is there, up to the registration of the stream. */
    method ResumeOpen(id: nat, verifies: bool) returns (ok: bool)
      requires id in pending && pending[id].phase.Awaiting? && pending[id].phase.result != NoResult
      modifies this
      ensures var e := Resume(self, old(TablesOf()), id, verifies);
              TablesOf() == e.tables && e.sent == {} && (ok <==> e.registers != {})
    {
      ghost var e := Resume(self, TablesOf(), id, verifies);
      var p := pending[id];
      var r := p.phase.result;
      if r.Rejected? || r.src != p.dst || !verifies {
        pending := pending - {id};
        return false;
      }
      var s := Stream(p.dst, true, Session(p.openNonce, r.ackNonce));
      assert EntryOf(self, id, s) in e.registers;
      streams := streams[id := s];
      pending := pending[id := p.(phase := Registered(s.session))];
      ok := true;
    }

    /** Its last part: announce that this end is ready, start the pump, return. */
    method FinishOpen(id: nat, sendFails: bool) returns (sent: set<Message>, pumps: set<Entry>)
      requires id in pending && pending[id].phase.Registered?
      modifies this
      ensures var e := SendReady(self, old(TablesOf()), id, sendFails);
              var f := StartPump(self, e.tables, id);
              TablesOf() == f.tables && sent == e.sent && pumps == f.pumps
    {
      var p := pending[id];
      sent, pumps := {Ready(self, p.dst, id)}, {};
      if sendFails {
        var none := Close(id, false);
        pending := pending - {id};
        return;
      }
      pumps := {Entry(self, id, p.dst, p.phase.session)};
      pending := pending - {id};
    }

    /** A non-blocking send into a channel with room for one reply. */
    method Deposit(id: nat, r: OpenResult)
      modifies this`pending
      ensures TablesOf() == Reply(old(TablesOf()), id, r).tables
    {
      if id in pending && pending[id].phase == Awaiting(NoResult) {
        pending := pending[id := pending[id].(phase := Awaiting(r))];
      }
    }
  }

  // ---------------------------------------------------------------- all nodes and the network

  datatype Opening = Opening(src: Id, dst: Id, nonce: nat)

  /** `net` are the packets ever sent: any of them may arrive at any time, any number of times, or
      never. `opens`, `registered`, `closed` and `pumps` remember what happened. */
  datatype World = World(nodes: map<Id, Tables>, net: set<Message>, opens: map<nat, Opening>,
                         registered: set<Entry>, closed: set<Entry>, pumps: set<Entry>)

  const START := World(map[], {}, map[], {}, {}, {})

  function At(w: World, n: Id): Tables { if n in w.nodes then w.nodes[n] else NO_TABLES }

  function After(w: World, n: Id, e: Effect): World {
    w.(nodes := w.nodes[n := e.tables], net := w.net + e.sent, registered := w.registered + e.registers,
       closed := w.closed + e.closes, pumps := w.pumps + e.pumps)
  }

  datatype Step =
    | BeginOpen(n: Id, id: nat, dst: Id, nonce: nat)
    | AbandonOpen(n: Id, id: nat)
    | ResumeOpen(n: Id, id: nat, verifies: bool)
    | SendReadyTo(n: Id, id: nat, fails: bool)
    | StartOwnPump(n: Id, id: nat)
    | Arrive(m: Message, v: Verdict)
    | CloseEnd(n: Id, id: nat, notify: bool)
    | SendData(pump: Entry)

  /** Stream IDs are drawn from 128 random bits: no two openings share one. A node opens a stream to
      itself without the network. A pump may send even after its stream was closed. */
  ghost predicate Enabled(w: World, s: Step) {
    match s
    case BeginOpen(n, id, dst, _) => id !in w.opens && n != dst
    case Arrive(m, _) => m in w.net
    case SendData(pump) => pump in w.pumps
    case _ => true
  }

  function Apply(w: World, s: Step): World {
    match s
    case BeginOpen(n, id, dst, nonce) =>
      After(w, n, Begin(n, At(w, n), id, dst, nonce)).(opens := w.opens[id := Opening(n, dst, nonce)])
    case AbandonOpen(n, id) => After(w, n, Abandon(At(w, n), id))
    case ResumeOpen(n, id, verifies) => After(w, n, Resume(n, At(w, n), id, verifies))
    case SendReadyTo(n, id, fails) => After(w, n, SendReady(n, At(w, n), id, fails))
    case StartOwnPump(n, id) => After(w, n, StartPump(n, At(w, n), id))
    case Arrive(m, v) => After(w, m.dst, HandleLocal(m.dst, At(w, m.dst), m, v))
    case CloseEnd(n, id, notify) => After(w, n, CloseLocal(n, At(w, n), id, notify))
    case SendData(p) => w.(net := w.net + {Data(p.node, p.peer, p.id, p.session)})
  }

  ghost predicate Reachable(w: World, steps: seq<Step>)
    decreases |steps|
  {
    if steps == [] then w == START
    else
      var last := steps[|steps| - 1];
      exists before :: Reachable(before, steps[..|steps| - 1]) && Enabled(before, last) && w == Apply(before, last)
  }

  /** Reached by some run from empty tables and a silent network. */
  ghost predicate Reached(w: World) { exists steps :: Reachable(w, steps) }

  // ---------------------------------------------------------------- invariant

  ghost predicate HasRegistered(w: World, n: Id, id: nat, peer: Id) {
    exists k :: Entry(n, id, peer, k) in w.registered
  }

  ghost predicate OpenedAs(w: World, id: nat, src: Id, dst: Id) {
    id in w.opens && w.opens[id].src == src && w.opens[id].dst == dst
  }

  ghost predicate OpeningOk(w: World, id: nat) {
    id in w.opens ==>
      w.opens[id].src != w.opens[id].dst && Open(w.opens[id].src, w.opens[id].dst, id, w.opens[id].nonce) in w.net
  }

  ghost predicate MessageOk(w: World, m: Message) {
    m in w.net ==>
      match m
      case Open(src, dst, id, nonce) => OpenedAs(w, id, src, dst) && w.opens[id].nonce == nonce
      case Ack(src, dst, id, a) => OpenedAs(w, id, dst, src) && Entry(src, id, dst, Session(w.opens[id].nonce, a)) in w.registered
      case Ready(src, dst, id) => OpenedAs(w, id, src, dst) && HasRegistered(w, src, id, dst)
      case Data(src, dst, id, k) => Entry(src, id, dst, k) in w.pumps
      case _ => true
  }

  /** The opener registers only a session that the other end has registered. */
  ghost predicate EntryOk(w: World, e: Entry) {
    e in w.registered ==>
      || (OpenedAs(w, e.id, e.node, e.peer) && Entry(e.peer, e.id, e.node, e.session) in w.registered)
      || (OpenedAs(w, e.id, e.peer, e.node) && e.session.openNonce == w.opens[e.id].nonce)
  }

  ghost predicate PumpOk(w: World, e: Entry) {
    e in w.pumps ==> e in w.registered && HasRegistered(w, e.peer, e.id, e.node)
  }

  /** What is registered and was never closed is still in the table. */
  ghost predicate CurrentOk(w: World, e: Entry) {
    e in w.registered ==> e in w.closed || (e.id in At(w, e.node).streams && EntryOf(e.node, e.id, At(w, e.node).streams[e.id]) == e)
  }

  ghost predicate StreamOk(w: World, n: Id, id: nat) {
    id in At(w, n).streams ==>
      && EntryOf(n, id, At(w, n).streams[id]) in w.registered
      && (At(w, n).streams[id].initiator ==> OpenedAs(w, id, n, At(w, n).streams[id].peer))
  }

  ghost predicate NeverHad(w: World, n: Id, id: nat) {
    forall peer, k :: Entry(n, id, peer, k) !in w.registered
  }

  ghost predicate PendingOk(w: World, n: Id, id: nat) {
    id in At(w, n).pending ==>
      var p := At(w, n).pending[id];
      && OpenedAs(w, id, n, p.dst) && w.opens[id].nonce == p.openNonce
      && match p.phase
         case Awaiting(r) => NeverHad(w, n, id) && (r.Acked? && r.src == p.dst ==> Ack(p.dst, n, id, r.ackNonce) in w.net)
         case Registered(k) => Entry(n, id, p.dst, k) in w.registered
         case ReadySent(k) => Entry(n, id, p.dst, k) in w.registered
  }

  ghost predicate Inv(w: World) {
    && (forall id :: OpeningOk(w, id))
    && (forall m :: MessageOk(w, m))
    && (forall e :: EntryOk(w, e))
    && (forall e :: PumpOk(w, e))
    && (forall e :: CurrentOk(w, e))
    && (forall n, id :: StreamOk(w, n, id))
    && (forall n, id :: PendingOk(w, n, id))
  }

  /** The same as one property of worlds. */
  ghost const INVARIANT: World -> bool := (w: World) => Inv(w)

  // ---------------------------------------------------------------- every step keeps it

  /** History only grows, and what is known about it stays known. */
  lemma HistoryKeeps(w: World, v: World)
    requires w.net <= v.net && w.opens == v.opens && w.registered <= v.registered && w.pumps <= v.pumps && Inv(w)
    ensures forall m :: m in w.net ==> MessageOk(v, m)
    ensures forall e :: e in w.registered ==> EntryOk(v, e)
    ensures forall e :: e in w.pumps ==> PumpOk(v, e)
  {
    forall m | m in w.net ensures MessageOk(v, m) {
      assert MessageOk(w, m);
    }
    forall e | e in w.registered ensures EntryOk(v, e) {
      assert EntryOk(w, e);
    }
    forall e | e in w.pumps ensures PumpOk(v, e) {
      assert PumpOk(w, e);
    }
  }

  /** What the node that acted has to guarantee. */
  ghost predicate Sound(w: World, n: Id, e: Effect) {
    var v := After(w, n, e);
    && (forall m :: m in e.sent ==> MessageOk(v, m))
    && (forall r :: r in e.registers ==> r.node == n && EntryOk(v, r))
    && (forall p :: p in e.pumps ==> PumpOk(v, p))
    && (forall r :: r in v.registered && r.node == n ==> CurrentOk(v, r))
    && (forall id :: StreamOk(v, n, id))
    && (forall id :: PendingOk(v, n, id))
  }

  lemma OtherNodesKeep(w: World, n: Id, e: Effect, o: Id)
    requires Inv(w) && o != n && (forall r :: r in e.registers ==> r.node == n)
    ensures forall id :: StreamOk(After(w, n, e), o, id) && PendingOk(After(w, n, e), o, id)
  {
    var v := After(w, n, e);
    assert At(v, o) == At(w, o);
    forall id ensures StreamOk(v, o, id) && PendingOk(v, o, id) {
      assert StreamOk(w, o, id) && PendingOk(w, o, id);
    }
  }

  lemma SoundKeeps(w: World, n: Id, e: Effect)
    requires Inv(w) && Sound(w, n, e)
    ensures INVARIANT(After(w, n, e))
  {
    var v := After(w, n, e);
    HistoryKeeps(w, v);
    forall id ensures OpeningOk(v, id) {
      assert OpeningOk(w, id);
    }
    forall o, id ensures StreamOk(v, o, id) && PendingOk(v, o, id) {
      if o != n {
        OtherNodesKeep(w, n, e, o);
      }
    }
    forall r ensures CurrentOk(v, r) {
      assert CurrentOk(w, r);
      if r.node != n {
        assert At(v, r.node) == At(w, r.node);
      }
    }
  }

  lemma BeginKeeps(w: World, n: Id, id: nat, dst: Id, nonce: nat)
    requires Inv(w) && Enabled(w, BeginOpen(n, id, dst, nonce))
    ensures INVARIANT(Apply(w, BeginOpen(n, id, dst, nonce)))
  {
    var v := Apply(w, BeginOpen(n, id, dst, nonce));
    assert forall k :: k in w.opens ==> k in v.opens && v.opens[k] == w.opens[k];
    forall k ensures OpeningOk(v, k) {
      assert OpeningOk(w, k);
    }
    forall m ensures MessageOk(v, m) {
      assert MessageOk(w, m);
    }
    forall e ensures EntryOk(v, e) && PumpOk(v, e) && CurrentOk(v, e) {
      assert EntryOk(w, e) && PumpOk(w, e) && CurrentOk(w, e);
    }
    forall o, k ensures StreamOk(v, o, k) && PendingOk(v, o, k) {
      assert StreamOk(w, o, k) && PendingOk(w, o, k);
      if o == n && k == id {
        forall peer, s ensures Entry(n, id, peer, s) !in w.registered {
          assert EntryOk(w, Entry(n, id, peer, s));
        }
      }
    }
  }

  ghost predicate Same<V>(a: map<nat, V>, b: map<nat, V>, id: nat) {
    (id in a <==> id in b) && (id in a ==> a[id] == b[id])
  }

  /** Only the rows for `id` differ, and only that stream is registered or closed. */
  ghost predicate Confined(n: Id, t: Tables, e: Effect, id: nat) {
    && (forall k :: k != id ==> Same(t.pending, e.tables.pending, k) && Same(t.streams, e.tables.streams, k))
    && (forall r :: r in e.registers ==> r.node == n && r.id == id)
  }

  lemma OtherRowsKeep(w: World, n: Id, e: Effect, id: nat)
    requires Inv(w) && Confined(n, At(w, n), e, id)
    ensures var v := After(w, n, e);
            && (forall k :: k != id ==> StreamOk(v, n, k) && PendingOk(v, n, k))
            && (forall r :: r in v.registered && r.node == n && r.id != id ==> CurrentOk(v, r))
  {
    var v := After(w, n, e);
    forall k | k != id ensures StreamOk(v, n, k) && PendingOk(v, n, k) {
      assert StreamOk(w, n, k) && PendingOk(w, n, k);
      assert Same(At(w, n).pending, e.tables.pending, k) && Same(At(w, n).streams, e.tables.streams, k);
    }
    forall r | r in v.registered && r.node == n && r.id != id ensures CurrentOk(v, r) {
      assert CurrentOk(w, r);
      assert Same(At(w, n).streams, e.tables.streams, r.id);
    }
  }

  /** The rows the handler did touch. */
  ghost predicate RowOk(v: World, n: Id, id: nat) {
    && StreamOk(v, n, id) && PendingOk(v, n, id)
    && forall r :: r in v.registered && r.node == n && r.id == id ==> CurrentOk(v, r)
  }

  ghost predicate HistoryOk(v: World, n: Id, e: Effect) {
    && (forall m :: m in e.sent ==> MessageOk(v, m))
    && (forall r :: r in e.registers ==> EntryOk(v, r))
    && (forall p :: p in e.pumps ==> PumpOk(v, p))
  }

  lemma ConfinedIsSound(w: World, n: Id, e: Effect, id: nat)
    requires Inv(w) && Confined(n, At(w, n), e, id)
    requires RowOk(After(w, n, e), n, id) && HistoryOk(After(w, n, e), n, e)
    ensures INVARIANT(After(w, n, e))
  {
    OtherRowsKeep(w, n, e, id);
    assert Sound(w, n, e);
    SoundKeeps(w, n, e);
  }

  /** The invariant for one stream at one node, ready to be used. */
  lemma RowFacts(w: World, n: Id, id: nat)
    requires Inv(w)
    ensures OpeningOk(w, id) && StreamOk(w, n, id) && PendingOk(w, n, id)
    ensures forall r :: r in w.registered && r.node == n && r.id == id ==> CurrentOk(w, r) && EntryOk(w, r)
  {
  }

  lemma AbandonKeeps(w: World, n: Id, id: nat)
    requires Inv(w)
    ensures INVARIANT(After(w, n, Abandon(At(w, n), id)))
  {
    RowFacts(w, n, id);
    ConfinedIsSound(w, n, Abandon(At(w, n), id), id);
  }

  lemma NothingKeeps(w: World, n: Id, sent: set<Message>)
    requires Inv(w) && forall m :: m in sent ==> m.Error?
    ensures INVARIANT(After(w, n, Only(At(w, n)).(sent := sent)))
  {
    RowFacts(w, n, 0);
    ConfinedIsSound(w, n, Only(At(w, n)).(sent := sent), 0);
  }

  lemma ReplyKeeps(w: World, n: Id, id: nat, r: OpenResult)
    requires Inv(w) && (r.Acked? ==> Ack(r.src, n, id, r.ackNonce) in w.net)
    ensures INVARIANT(After(w, n, Reply(At(w, n), id, r)))
  {
    RowFacts(w, n, id);
    ConfinedIsSound(w, n, Reply(At(w, n), id, r), id);
  }

  lemma CloseKeeps(w: World, n: Id, id: nat, notify: bool)
    requires Inv(w)
    ensures INVARIANT(After(w, n, CloseLocal(n, At(w, n), id, notify)))
  {
    RowFacts(w, n, id);
    ConfinedIsSound(w, n, CloseLocal(n, At(w, n), id, notify), id);
  }

  lemma ResumeKeeps(w: World, n: Id, id: nat, verifies: bool)
    requires Inv(w)
    ensures INVARIANT(After(w, n, Resume(n, At(w, n), id, verifies)))
  {
    RowFacts(w, n, id);
    var e := Resume(n, At(w, n), id, verifies);
    if e.registers != {} {
      var p := At(w, n).pending[id];
      var k := Session(p.openNonce, p.phase.result.ackNonce);
      assert MessageOk(w, Ack(p.dst, n, id, k.ackNonce));
      assert e.registers == {Entry(n, id, p.dst, k)};
    }
    ConfinedIsSound(w, n, e, id);
  }

  lemma SendReadyKeeps(w: World, n: Id, id: nat, fails: bool)
    requires Inv(w)
    ensures INVARIANT(After(w, n, SendReady(n, At(w, n), id, fails)))
  {
    RowFacts(w, n, id);
    var e := SendReady(n, At(w, n), id, fails);
    var v := After(w, n, e);
    if id in At(w, n).pending && At(w, n).pending[id].phase.Registered? {
      var p := At(w, n).pending[id];
      assert Entry(n, id, p.dst, p.phase.session) in v.registered;
      assert MessageOk(v, Ready(n, p.dst, id));
    }
    ConfinedIsSound(w, n, e, id);
  }

  lemma StartPumpKeeps(w: World, n: Id, id: nat)
    requires Inv(w)
    ensures INVARIANT(After(w, n, StartPump(n, At(w, n), id)))
  {
    RowFacts(w, n, id);
    var e := StartPump(n, At(w, n), id);
    var v := After(w, n, e);
    if e.pumps != {} {
      var p := At(w, n).pending[id];
      var own := Entry(n, id, p.dst, p.phase.session);
      assert EntryOk(w, own) && e.pumps == {own};
      assert PumpOk(v, own) by {
        assert Entry(p.dst, id, n, p.phase.session) in v.registered;
      }
    }
    ConfinedIsSound(w, n, e, id);
  }

  lemma OpenKeeps(w: World, m: Message, c: Verdict)
    requires Inv(w) && m in w.net && m.Open?
    ensures INVARIANT(After(w, m.dst, HandleOpen(m.dst, At(w, m.dst), m, c)))
  {
    var n := m.dst;
    RowFacts(w, n, m.id);
    assert MessageOk(w, m);
    var e := HandleOpen(n, At(w, n), m, c);
    if e.registers != {} {
      assert e.registers == {Entry(n, m.id, m.src, Session(m.openNonce, c.ackNonce))};
    }
    ConfinedIsSound(w, n, e, m.id);
  }

  lemma ReadyKeeps(w: World, m: Message, c: Verdict)
    requires Inv(w) && m in w.net && m.Ready?
    ensures INVARIANT(After(w, m.dst, HandleLocal(m.dst, At(w, m.dst), m, c)))
  {
    var n := m.dst;
    RowFacts(w, n, m.id);
    assert MessageOk(w, m);
    var e := HandleLocal(n, At(w, n), m, c);
    var v := After(w, n, e);
    if e.pumps != {} {
      var own := EntryOf(n, m.id, At(w, n).streams[m.id]);
      assert e.pumps == {own};
      var k :| Entry(m.src, m.id, n, k) in w.registered;
      assert PumpOk(v, own) by {
        assert Entry(m.src, m.id, n, k) in v.registered;
      }
    }
    ConfinedIsSound(w, n, e, m.id);
  }

  lemma ArriveKeeps(w: World, m: Message, c: Verdict)
    requires Inv(w) && m in w.net
    ensures INVARIANT(Apply(w, Arrive(m, c)))
  {
    match m
    case Open(_, _, _, _) => OpenKeeps(w, m, c);
    case Ack(src, dst, id, a) => ReplyKeeps(w, dst, id, Acked(src, a));
    case Error(_, dst, id) => ReplyKeeps(w, dst, id, Rejected);
    case Ready(_, _, _) => ReadyKeeps(w, m, c);
    case Data(_, dst, _, _) => NothingKeeps(w, dst, {});
    case Close(_, dst, id) => CloseKeeps(w, dst, id, false);
  }

  lemma StepKeeps(w: World, s: Step)
    requires Inv(w) && Enabled(w, s)
    ensures INVARIANT(Apply(w, s))
  {
    match s
    case BeginOpen(n, id, dst, nonce) => BeginKeeps(w, n, id, dst, nonce);
    case AbandonOpen(n, id) => AbandonKeeps(w, n, id);
    case ResumeOpen(n, id, verifies) => ResumeKeeps(w, n, id, verifies);
    case SendReadyTo(n, id, fails) => SendReadyKeeps(w, n, id, fails);
    case StartOwnPump(n, id) => StartPumpKeeps(w, n, id);
    case CloseEnd(n, id, notify) => CloseKeeps(w, n, id, notify);
    case Arrive(m, v) => ArriveKeeps(w, m, v);
    case SendData(p) =>
      HistoryKeeps(w, Apply(w, s));
      NothingElseChanges(w, Apply(w, s));
  }

  lemma NothingElseChanges(w: World, v: World)
    requires Inv(w) && v == w.(net := v.net) && w.net <= v.net
    ensures forall id :: OpeningOk(v, id)
    ensures forall e :: EntryOk(v, e) && PumpOk(v, e) && CurrentOk(v, e)
    ensures forall n, id :: StreamOk(v, n, id) && PendingOk(v, n, id)
  {
    forall id ensures OpeningOk(v, id) {
      assert OpeningOk(w, id);
    }
    forall e ensures EntryOk(v, e) && PumpOk(v, e) && CurrentOk(v, e) {
      assert EntryOk(w, e) && PumpOk(w, e) && CurrentOk(w, e);
    }
    forall n, id ensures StreamOk(v, n, id) && PendingOk(v, n, id) {
      assert StreamOk(w, n, id) && PendingOk(w, n, id);
    }
  }

  lemma {:induction false} ReachableKeeps(w: World, steps: seq<Step>)
    requires Reachable(w, steps)
    ensures INVARIANT(w)
    decreases |steps|
  {
    if steps != [] {
      var last := steps[|steps| - 1];
      var before :| Reachable(before, steps[..|steps| - 1]) && Enabled(before, last) && w == Apply(before, last);
      ReachableKeeps(before, steps[..|steps| - 1]);
      StepKeeps(before, last);
    }
  }

  lemma ReachedKeeps(w: World)
    requires Reached(w)
    ensures INVARIANT(w)
  {
    var steps :| Reachable(w, steps);
    ReachableKeeps(w, steps);
  }

  // ---------------------------------------------------------------- results

  /** Data is only ever sent to a node that has registered the stream; if the table of that node
      has no such stream when the packet arrives, the node has closed it. */
  lemma DataFindsItsStream(w: World, m: Message)
    requires Reached(w) && m in w.net && m.Data?
    ensures HasRegistered(w, m.dst, m.id, m.src)
    ensures m.id !in At(w, m.dst).streams ==> exists k :: Entry(m.dst, m.id, m.src, k) in w.registered && Entry(m.dst, m.id, m.src, k) in w.closed
  {
    ReachedKeeps(w);
    assert MessageOk(w, m) && PumpOk(w, Entry(m.src, m.id, m.dst, m.session));
    var k :| Entry(m.dst, m.id, m.src, k) in w.registered;
    assert CurrentOk(w, Entry(m.dst, m.id, m.src, k));
  }

  /** Data sealed under some session keys goes to a node that has registered exactly that session,
      unless it comes from an acceptor that has registered another session of the stream as well. */
  lemma DataFindsItsSession(w: World, m: Message)
    requires Reached(w) && m in w.net && m.Data?
    ensures Entry(m.dst, m.id, m.src, m.session) in w.registered
         || (OpenedAs(w, m.id, m.dst, m.src) && exists k :: k != m.session && Entry(m.src, m.id, m.dst, k) in w.registered)
  {
    ReachedKeeps(w);
    var own := Entry(m.src, m.id, m.dst, m.session);
    assert MessageOk(w, m) && PumpOk(w, own) && EntryOk(w, own);
    if !OpenedAs(w, m.id, m.src, m.dst) {
      var k :| Entry(m.dst, m.id, m.src, k) in w.registered;
      assert EntryOk(w, Entry(m.dst, m.id, m.src, k)) && OpeningOk(w, m.id);
    }
  }

  /** The opener and the acceptor of a session derive their keys from the same two nonces: whatever
      session the opener holds, the acceptor has registered it. */
  lemma OpenerAgreesWithAcceptor(w: World, n: Id, id: nat)
    requires Reached(w) && id in At(w, n).streams && At(w, n).streams[id].initiator
    ensures var s := At(w, n).streams[id];
            Entry(s.peer, id, n, s.session) in w.registered
  {
    ReachedKeeps(w);
    RowFacts(w, n, id);
    assert EntryOk(w, EntryOf(n, id, At(w, n).streams[id]));
  }

  // ---------------------------------------------------------------- what opening and closing achieve

  /** Nothing but the row of node `n` for stream `id` has changed. */
  ghost predicate OnlyRowChanged(w: World, v: World, n: Id, id: nat) {
    && (forall m: Id, j: nat :: (m, j) != (n, id) ==>
          (j in At(v, m).streams <==> j in At(w, m).streams) && (j in At(v, m).pending <==> j in At(w, m).pending))
    && (forall m: Id, j: nat :: (m, j) != (n, id) && j in At(w, m).streams ==> At(v, m).streams[j] == At(w, m).streams[j])
    && (forall m: Id, j: nat :: (m, j) != (n, id) && j in At(w, m).pending ==> At(v, m).pending[j] == At(w, m).pending[j])
  }

  /** An arriving close takes the stream out of the table, is recorded, and does nothing else. */
  lemma CloseArrives(w: World, src: Id, dst: Id, id: nat, v: Verdict)
    ensures var x := Apply(w, Arrive(Close(src, dst, id), v));
            && id !in At(x, dst).streams && At(x, dst).pending == At(w, dst).pending
            && x.closed == w.closed + (if id in At(w, dst).streams then {EntryOf(dst, id, At(w, dst).streams[id])} else {})
            && (x.net, x.opens, x.registered, x.pumps) == (w.net, w.opens, w.registered, w.pumps)
            && OnlyRowChanged(w, x, dst, id)
  {
    var x := Apply(w, Arrive(Close(src, dst, id), v));
    assert x.net == w.net && x.registered == w.registered && x.pumps == w.pumps;
  }

  /** A local close likewise; with notice it tells the peer. */
  lemma EndCloses(w: World, n: Id, id: nat, notify: bool)
    requires id in At(w, n).streams
    ensures var s := At(w, n).streams[id];
            var x := Apply(w, CloseEnd(n, id, notify));
            && id !in At(x, n).streams && EntryOf(n, id, s) in x.closed
            && x.net == w.net + (if notify then {Close(n, s.peer, id)} else {})
            && (x.opens, x.registered, x.pumps) == (w.opens, w.registered, w.pumps)
            && OnlyRowChanged(w, x, n, id)
  {
    var x := Apply(w, CloseEnd(n, id, notify));
    assert x.registered == w.registered && x.pumps == w.pumps;
  }

  /** A reply that was not acknowledged by the destination, or does not verify, ends the call and
      registers nothing; the other one registers exactly the session it acknowledges. */
  lemma ResumeRegistersExactly(w: World, n: Id, id: nat, verifies: bool)
    requires id in At(w, n).pending && At(w, n).pending[id].phase.Awaiting? && At(w, n).pending[id].phase.result != NoResult
    ensures var p := At(w, n).pending[id];
            var r := p.phase.result;
            var x := Apply(w, ResumeOpen(n, id, verifies));
            && (x.net, x.closed, x.pumps) == (w.net, w.closed, w.pumps)
            && OnlyRowChanged(w, x, n, id)
            && if verifies && r.Acked? && r.src == p.dst then
                 var k := Session(p.openNonce, r.ackNonce);
                 && x.registered == w.registered + {Entry(n, id, p.dst, k)}
                 && id in At(x, n).streams && At(x, n).streams[id] == Stream(p.dst, true, k)
               else
                 x.registered == w.registered && At(x, n).streams == At(w, n).streams && id !in At(x, n).pending
  {
    var x := Apply(w, ResumeOpen(n, id, verifies));
    assert x.pumps == w.pumps && x.closed == w.closed && x.net == w.net;
  }

  /** The first reply counts: a second one changes nothing, nor does one that nobody waits for. */
  lemma OnlyFirstReplyCounts(w: World, m: Message, v: Verdict)
    requires m.Ack? || m.Error?
    ensures var x := Apply(w, Arrive(m, v));
            && (x.net, x.opens, x.registered, x.closed, x.pumps) == (w.net, w.opens, w.registered, w.closed, w.pumps)
            && OnlyRowChanged(w, x, m.dst, m.id) && At(x, m.dst).streams == At(w, m.dst).streams
            && if m.id in At(w, m.dst).pending && At(w, m.dst).pending[m.id].phase == Awaiting(NoResult) then
                 var p := At(w, m.dst).pending[m.id];
                 && m.id in At(x, m.dst).pending
                 && At(x, m.dst).pending[m.id] == Pending(p.dst, p.openNonce, Awaiting(if m.Ack? then Acked(m.src, m.ackNonce) else Rejected))
               else At(x, m.dst) == At(w, m.dst)
  {
    var x := Apply(w, Arrive(m, v));
    assert x.net == w.net && x.registered == w.registered && x.closed == w.closed && x.pumps == w.pumps;
  }

  /** An opening packet for a stream that is in the table, or that is refused, gets an error and
      changes nothing; any other one gets an acknowledgement and puts the stream into the table. */
  lemma OpeningPacketIsAnswered(w: World, src: Id, dst: Id, id: nat, nonce: nat, v: Verdict)
    ensures var x := Apply(w, Arrive(Open(src, dst, id, nonce), v));
            && (x.opens, x.closed, x.pumps) == (w.opens, w.closed, w.pumps)
            && OnlyRowChanged(w, x, dst, id) && At(x, dst).pending == At(w, dst).pending
            && if v.Refuse? || id in At(w, dst).streams then
                 x.net == w.net + {Error(dst, src, id)} && x.registered == w.registered && At(x, dst) == At(w, dst)
               else
                 && x.net == w.net + {Ack(dst, src, id, v.ackNonce)}
                 && id in At(x, dst).streams && At(x, dst).streams[id] == Stream(src, false, Session(nonce, v.ackNonce))
                 && x.registered == w.registered + {Entry(dst, id, src, Session(nonce, v.ackNonce))}
  {
    var x := Apply(w, Arrive(Open(src, dst, id, nonce), v));
    assert x.closed == w.closed && x.pumps == w.pumps;
  }

  /** A call that gives up leaves nothing waiting and touches no stream. */
  lemma AbandonedCallIsGone(w: World, n: Id, id: nat)
    ensures var x := Apply(w, AbandonOpen(n, id));
            && id !in At(x, n).pending && At(x, n).streams == At(w, n).streams && OnlyRowChanged(w, x, n, id)
            && (x.net, x.registered, x.closed, x.pumps) == (w.net, w.registered, w.closed, w.pumps)
  {
    var x := Apply(w, AbandonOpen(n, id));
    assert x.net == w.net && x.registered == w.registered && x.closed == w.closed && x.pumps == w.pumps;
  }

  /** A stream that its node has closed comes back in no run that refuses to open it again. */
  lemma StrictStaysClosed(w: World, s: Step, n: Id, id: nat)
    requires Reached(w) && Enabled(w, s) && !Reaccepts(w, s, id)
    requires !NeverHad(w, n, id) && id !in At(w, n).streams
    ensures !NeverHad(Apply(w, s), n, id) && id !in At(Apply(w, s), n).streams
  {
    var peer, k :| Entry(n, id, peer, k) in w.registered;
    RegisteredStays(w, s, Entry(n, id, peer, k));
    if s.ResumeOpen? && s.n == n && s.id == id {
      ReachedKeeps(w);
      assert PendingOk(w, n, id);
    } else {
      OnlyTwoStepsRegister(w, s, n, id);
    }
  }

  lemma RegisteredStays(w: World, s: Step, e: Entry)
    requires e in w.registered
    ensures e in Apply(w, s).registered
  {
  }

  /** Only a resumed call and an accepted opening packet put a stream into a table. */
  lemma OnlyTwoStepsRegister(w: World, s: Step, n: Id, id: nat)
    requires id !in At(w, n).streams && !(s.ResumeOpen? && s.n == n && s.id == id)
    requires !(s.Arrive? && s.m.Open? && s.m.dst == n && s.m.id == id && s.v.Accept?)
    ensures id !in At(Apply(w, s), n).streams
  {
  }

  lemma {:induction false} StrictRunStaysClosed(w: World, v: World, steps: seq<Step>, n: Id, id: nat)
    requires Reached(w) && Continues(w, v, steps, id, true)
    requires !NeverHad(w, n, id) && id !in At(w, n).streams
    ensures Reached(v) && id !in At(v, n).streams && !NeverHad(v, n, id)
    decreases |steps|
  {
    if steps != [] {
      StrictStaysClosed(w, steps[0], n, id);
      Extend(w, steps[0]);
      StrictRunStaysClosed(Apply(w, steps[0]), v, steps[1..], n, id);
    }
  }

  /** A close with notice, whenever the notice arrives, leaves the stream in neither table, and it
      stays away for as long as nobody accepts its opening packet again. */
  lemma NoticeClosesBothEnds(w: World, v: World, steps: seq<Step>, a: Id, id: nat, c: Verdict)
    requires Reached(w) && id in At(w, a).streams
    requires Continues(Apply(w, CloseEnd(a, id, true)), v, steps, id, true)
    ensures var b := At(w, a).streams[id].peer;
            var x := Apply(v, Arrive(Close(a, b, id), c));
            && Close(a, b, id) in Apply(w, CloseEnd(a, id, true)).net
            && id !in At(x, a).streams && id !in At(x, b).streams
  {
    var b := At(w, a).streams[id].peer;
    var u := Apply(w, CloseEnd(a, id, true));
    ReachedKeeps(w);
    assert StreamOk(w, a, id);
    EndCloses(w, a, id, true);
    Extend(w, CloseEnd(a, id, true));
    assert Entry(a, id, b, At(w, a).streams[id].session) in u.registered;
    StrictRunStaysClosed(u, v, steps, a, id);
    CloseArrives(v, a, b, id, c);
  }

  // ---------------------------------------------------------------- one opening from beginning to end

  /** The table entries of both ends before a stream is opened: there are none. */
  lemma FreshStream(w: World, n: Id, id: nat)
    requires Reached(w) && id !in w.opens
    ensures id !in At(w, n).streams
  {
    ReachedKeeps(w);
    assert StreamOk(w, n, id);
    if id in At(w, n).streams {
      RegisteredWasOpened(w, EntryOf(n, id, At(w, n).streams[id]));
    }
  }

  lemma RegisteredWasOpened(w: World, e: Entry)
    requires Inv(w) && e in w.registered
    ensures e.id in w.opens
  {
    assert EntryOk(w, e);
  }

  /** The opening packet is sent and accepted, and the acknowledgement reaches the opener. */
  function Introduced(w: World, a: Id, b: Id, id: nat, n: nat, k: nat): World {
    Apply(Apply(Apply(w, BeginOpen(a, id, b, n)), Arrive(Open(a, b, id, n), Accept(k))), Arrive(Ack(b, a, id, k), Refuse))
  }

  /** It verifies, and READY and the pumps follow. */
  function Opened(w: World, a: Id, b: Id, id: nat, n: nat, k: nat): World {
    var v := Apply(Apply(Introduced(w, a, b, id, n, k), ResumeOpen(a, id, true)), SendReadyTo(a, id, false));
    Apply(Apply(v, Arrive(Ready(a, b, id), Refuse)), StartOwnPump(a, id))
  }

  lemma IntroducingWorks(w: World, a: Id, b: Id, id: nat, n: nat, k: nat)
    requires Reached(w) && id !in w.opens && a != b
    ensures var v := Introduced(w, a, b, id, n, k);
            && Open(a, b, id, n) in Apply(w, BeginOpen(a, id, b, n)).net && Ack(b, a, id, k) in v.net
            && id in At(v, a).pending && At(v, a).pending[id] == Pending(b, n, Awaiting(Acked(b, k)))
            && id !in At(v, a).streams && id in At(v, b).streams && At(v, b).streams[id] == Stream(a, false, Session(n, k))
            && Entry(b, id, a, Session(n, k)) in v.registered
  {
    FreshStream(w, a, id);
    FreshStream(w, b, id);
    var u := Apply(Apply(w, BeginOpen(a, id, b, n)), Arrive(Open(a, b, id, n), Accept(k)));
    assert Entry(b, id, a, Session(n, k)) in u.registered;
  }

  /** When nothing is lost and nobody refuses, an opening call puts the stream into both tables under
      one session, starts both pumps, and returns. */
  lemma OpeningSucceeds(w: World, a: Id, b: Id, id: nat, n: nat, k: nat)
    requires Reached(w) && id !in w.opens && a != b
    ensures var v := Opened(w, a, b, id, n, k);
            var s := Session(n, k);
            && id in At(v, a).streams && At(v, a).streams[id] == Stream(b, true, s)
            && id in At(v, b).streams && At(v, b).streams[id] == Stream(a, false, s)
            && {Entry(a, id, b, s), Entry(b, id, a, s)} <= v.pumps * v.registered
            && id !in At(v, a).pending && Ready(a, b, id) in v.net
  {
    IntroducingWorks(w, a, b, id, n, k);
    FinishingWorks(Introduced(w, a, b, id, n, k), a, b, id, n, k);
  }

  lemma FinishingWorks(u: World, a: Id, b: Id, id: nat, n: nat, k: nat)
    requires a != b && id in At(u, a).pending && At(u, a).pending[id] == Pending(b, n, Awaiting(Acked(b, k)))
    requires id in At(u, b).streams && At(u, b).streams[id] == Stream(a, false, Session(n, k))
    requires Entry(b, id, a, Session(n, k)) in u.registered
    ensures var v := Apply(Apply(u, ResumeOpen(a, id, true)), SendReadyTo(a, id, false));
            var x := Apply(Apply(v, Arrive(Ready(a, b, id), Refuse)), StartOwnPump(a, id));
            var s := Session(n, k);
            && id in At(x, a).streams && At(x, a).streams[id] == Stream(b, true, s)
            && id in At(x, b).streams && At(x, b).streams[id] == Stream(a, false, s)
            && {Entry(a, id, b, s), Entry(b, id, a, s)} <= x.pumps * x.registered
            && id !in At(x, a).pending && Ready(a, b, id) in x.net
  {
    var v := Apply(u, ResumeOpen(a, id, true));
    assert id in At(v, a).pending && At(v, a).pending[id] == Pending(b, n, Registered(Session(n, k)));
    var y := Apply(v, SendReadyTo(a, id, false));
    assert id in At(y, a).pending && At(y, a).pending[id] == Pending(b, n, ReadySent(Session(n, k)));
    assert At(y, b) == At(u, b);
    var z := Apply(y, Arrive(Ready(a, b, id), Refuse));
    assert Entry(b, id, a, Session(n, k)) in z.pumps;
    var x := Apply(z, StartOwnPump(a, id));
    assert Entry(a, id, b, Session(n, k)) in x.pumps;
  }

  /** When the other node refuses, its error ends the call, and neither node has anything of it. */
  lemma RefusedOpeningLeavesNothing(w: World, a: Id, b: Id, id: nat, n: nat, c: Verdict, verifies: bool)
    requires Reached(w) && id !in w.opens && a != b
    ensures var u := Apply(Apply(w, BeginOpen(a, id, b, n)), Arrive(Open(a, b, id, n), Refuse));
            var v := Apply(Apply(u, Arrive(Error(b, a, id), c)), ResumeOpen(a, id, verifies));
            && Error(b, a, id) in u.net
            && id !in At(v, a).streams && id !in At(v, b).streams && id !in At(v, a).pending
            && v.registered == w.registered && v.pumps == w.pumps
  {
    FreshStream(w, a, id);
    FreshStream(w, b, id);
    var u := Apply(Apply(w, BeginOpen(a, id, b, n)), Arrive(Open(a, b, id, n), Refuse));
    assert id in At(u, a).pending && At(u, a).pending[id] == Pending(b, n, Awaiting(NoResult));
    var x := Apply(u, Arrive(Error(b, a, id), c));
    assert id in At(x, a).pending && At(x, a).pending[id] == Pending(b, n, Awaiting(Rejected));
    assert u.registered == w.registered && u.pumps == w.pumps;
    assert x.registered == w.registered && x.pumps == w.pumps;
  }

  /** When READY cannot be sent the call ends and the opener has no such stream any more. */
  lemma FailedReadyCloses(w: World, n: Id, id: nat)
    requires id in At(w, n).pending && At(w, n).pending[id].phase.Registered? && id in At(w, n).streams
    ensures var x := Apply(w, SendReadyTo(n, id, true));
            && id !in At(x, n).streams && id !in At(x, n).pending && x.pumps == w.pumps
            && EntryOf(n, id, At(w, n).streams[id]) in x.closed
  {
  }

  // ---------------------------------------------------------------- exactly when sessions match

  lemma Extend(w: World, s: Step)
    requires Reached(w) && Enabled(w, s)
    ensures Reached(Apply(w, s))
  {
    var steps :| Reachable(w, steps);
    var more := steps + [s];
    assert more[|more| - 1] == s && more[..|more| - 1] == steps;
    assert Reachable(Apply(w, s), more);
  }

  /** A node accepts an opening packet for a stream ID it has registered before. The program only
      looks whether the ID is in the table now. */
  ghost predicate Reaccepts(w: World, s: Step, id: nat) {
    s.Arrive? && s.m.Open? && s.m.id == id && s.v.Accept? && exists peer, k :: Entry(s.m.dst, id, peer, k) in w.registered
  }

  /** A run from `w` to `v`; a strict one refuses what has been registered before. */
  ghost predicate Continues(w: World, v: World, steps: seq<Step>, id: nat, strict: bool)
    decreases |steps|
  {
    if steps == [] then w == v
    else
      && Enabled(w, steps[0]) && !(strict && Reaccepts(w, steps[0], id))
      && Continues(Apply(w, steps[0]), v, steps[1..], id, strict)
  }

  /** All data of the stream has gone to a node that registered exactly its session. */
  ghost predicate Matches(w: World, id: nat) {
    forall m :: m in w.net && m.Data? && m.id == id ==> Entry(m.dst, id, m.src, m.session) in w.registered
  }

  ghost predicate AlwaysMatches(w: World, id: nat, strict: bool) {
    forall v, steps :: Continues(w, v, steps, id, strict) ==> Matches(v, id)
  }

  ghost predicate OneSession(w: World, n: Id, id: nat) {
    forall p, q, j, k :: Entry(n, id, p, j) in w.registered && Entry(n, id, q, k) in w.registered ==> j == k
  }

  /** Only accepting an opening packet registers anything at the accepting end. */
  lemma StrictStepKeeps(w: World, s: Step, a: Id, b: Id, id: nat)
    requires Reached(w) && OpenedAs(w, id, a, b) && Enabled(w, s) && OneSession(w, b, id) && !Reaccepts(w, s, id)
    ensures OneSession(Apply(w, s), b, id) && OpenedAs(Apply(w, s), id, a, b)
  {
    ReachedKeeps(w);
    if s.ResumeOpen? && s.id == id {
      assert PendingOk(w, s.n, id) && OpeningOk(w, id);
    }
  }

  lemma {:induction false} StrictRunMatches(w: World, v: World, steps: seq<Step>, a: Id, b: Id, id: nat)
    requires Reached(w) && OpenedAs(w, id, a, b) && OneSession(w, b, id) && Continues(w, v, steps, id, true)
    ensures Matches(v, id)
    decreases |steps|
  {
    if steps == [] {
      forall m | m in w.net && m.Data? && m.id == id ensures Entry(m.dst, id, m.src, m.session) in w.registered {
        ReachedKeeps(w);
        assert MessageOk(w, m) && PumpOk(w, Entry(m.src, id, m.dst, m.session));
        DataFindsItsSession(w, m);
      }
    } else {
      StrictStepKeeps(w, steps[0], a, b, id);
      Extend(w, steps[0]);
      StrictRunMatches(Apply(w, steps[0]), v, steps[1..], a, b, id);
    }
  }

  lemma {:induction false} ContinueOnce(w: World, v: World, steps: seq<Step>, id: nat, s: Step)
    requires Continues(w, v, steps, id, false) && Enabled(v, s)
    ensures Continues(w, Apply(v, s), steps + [s], id, false)
    decreases |steps|
  {
    if steps == [] {
      assert [s][1..] == [] && steps + [s] == [s];
    } else {
      assert (steps + [s])[1..] == steps[1..] + [s];
      ContinueOnce(Apply(w, steps[0]), v, steps[1..], id, s);
    }
  }

  /** The acceptor's table has no such stream any more and nothing else has changed. */
  lemma ClosedAgain(w: World, b: Id, id: nat)
    ensures var v := Apply(w, CloseEnd(b, id, true));
            id !in At(v, b).streams && w.net <= v.net && (v.registered, v.opens) == (w.registered, w.opens)
  {
    assert Apply(w, CloseEnd(b, id, true)).registered == w.registered;
  }

  lemma AcceptedAgain(w: World, a: Id, b: Id, id: nat, nonce: nat, n: nat)
    requires id !in At(w, b).streams
    ensures var v := Apply(w, Arrive(Open(a, b, id, nonce), Accept(n)));
            && id in At(v, b).streams && At(v, b).streams[id] == Stream(a, false, Session(nonce, n)) && w.net <= v.net
            && (v.registered, v.opens) == (w.registered + {Entry(b, id, a, Session(nonce, n))}, w.opens)
  {
  }

  lemma PumpsAgain(w: World, a: Id, b: Id, id: nat, k: Session)
    requires id in At(w, b).streams && At(w, b).streams[id] == Stream(a, false, k)
    ensures var v := Apply(w, Arrive(Ready(a, b, id), Refuse));
            Entry(b, id, a, k) in v.pumps && v.registered == w.registered
  {
  }

  /** The acceptor may close and be handed the opening packet once more. */
  lemma AcceptsAgain(w: World, a: Id, b: Id, id: nat, n: nat) returns (v: World, steps: seq<Step>)
    requires Reached(w) && Ready(a, b, id) in w.net && id in w.opens
    ensures a != b && Ready(a, b, id) in v.net && Continues(w, v, steps, id, false)
    ensures var k := Session(w.opens[id].nonce, n);
            && id in At(v, b).streams && At(v, b).streams[id] == Stream(a, false, k)
            && v.registered == w.registered + {Entry(b, id, a, k)}
  {
    ReachedKeeps(w);
    assert MessageOk(w, Ready(a, b, id)) && OpeningOk(w, id);
    var close, open := CloseEnd(b, id, true), Arrive(Open(a, b, id, w.opens[id].nonce), Accept(n));
    ClosedAgain(w, b, id);
    var u := Apply(w, close);
    AcceptedAgain(u, a, b, id, w.opens[id].nonce, n);
    assert Continues(w, w, [], id, false);
    ContinueOnce(w, w, [], id, close);
    ContinueOnce(w, u, [] + [close], id, open);
    v, steps := Apply(u, open), [] + [close] + [open];
  }

  /** Wherever the READY of a stream is under way, the acceptor may close, be handed the opening packet
      once more, register a session under any other nonce, and send data for it that the opener
      cannot open. */
  lemma ReopenedStreamSendsUnderNewKeys(w: World, a: Id, b: Id, id: nat, n: nat)
    requires Reached(w) && Ready(a, b, id) in w.net && id in w.opens
    requires Entry(a, id, b, Session(w.opens[id].nonce, n)) !in w.registered
    ensures exists v, steps :: && Continues(w, v, steps, id, false) && Data(b, a, id, Session(w.opens[id].nonce, n)) in v.net
                               && Entry(a, id, b, Session(w.opens[id].nonce, n)) !in v.registered
  {
    var k := Session(w.opens[id].nonce, n);
    var ready, data := Arrive(Ready(a, b, id), Refuse), SendData(Entry(b, id, a, k));
    var v, steps := AcceptsAgain(w, a, b, id, n);
    PumpsAgain(v, a, b, id, k);
    var u := Apply(v, ready);
    ContinueOnce(w, v, steps, id, ready);
    ContinueOnce(w, u, steps + [ready], id, data);
    assert Data(b, a, id, k) in Apply(u, data).net;
  }

  lemma {:induction false} UnusedNonce(es: set<Entry>) returns (n: nat)
    ensures forall e :: e in es ==> e.session.ackNonce < n
  {
    if es == {} {
      n := 0;
    } else {
      var e :| e in es;
      n := UnusedNonce(es - {e});
      if n <= e.session.ackNonce {
        n := e.session.ackNonce + 1;
      }
      forall f | f in es ensures f.session.ackNonce < n {
        if f != e {
          assert f in es - {e};
        }
      }
    }
  }

  /** From any moment at which the opener has announced itself and the acceptor has registered one
      session, data always meets its session in every continuation if and only if opening packets
      are refused for whatever has been registered before, and not just for what is still open. */
  lemma SessionsMatchExactlyWhenStrict(w: World, a: Id, b: Id, id: nat, strict: bool)
    requires Reached(w) && Ready(a, b, id) in w.net && OneSession(w, b, id)
    ensures AlwaysMatches(w, id, strict) <==> strict
  {
    ReachedKeeps(w);
    assert MessageOk(w, Ready(a, b, id));
    if strict {
      forall v, steps | Continues(w, v, steps, id, true) ensures Matches(v, id) {
        StrictRunMatches(w, v, steps, a, b, id);
      }
    } else {
      var n := UnusedNonce(w.registered);
      ReopenedStreamSendsUnderNewKeys(w, a, b, id, n);
    }
  }
}
