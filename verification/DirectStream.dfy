/** A stream straight between two nodes, over a network that may drop, duplicate, reorder and
    replay packets. The bytes the receiver hands to its local endpoint are always a prefix of the
    bytes the sender read from its own, as long as the 64-bit counter does not wrap. */
module DirectStream {
  import opened NodeId
  import opened Wire

  const MAX_READ := 32 * 1024

  /** One direction of a stream: its key, its stream ID and the two nodes. */
  datatype Direction = Direction(key: nat, id: Id16, src: Raw, dst: Raw)

  /** The cipher is ideal: text is sealed to a key and its associated data, anything else is noise. */
  datatype Payload =
    | Sealed(key: nat, id: Id16, src: Raw, dst: Raw, seqNo: Uint64, plain: Bytes)
    | Noise(bytes: Bytes)

  datatype DataPacket = DataPacket(src: Raw, dst: Raw, id: Id16, seqNo: Uint64, payload: Payload)

  function SealFor(d: Direction, seqNo: Uint64, chunk: Bytes): Payload {
    Sealed(d.key, d.id, d.src, d.dst, seqNo, chunk)
  }

  function PacketFor(d: Direction, seqNo: Uint64, chunk: Bytes): DataPacket {
    DataPacket(d.src, d.dst, d.id, seqNo, SealFor(d, seqNo, chunk))
  }

  /** The receiver opens with its own key and stream ID and the addresses and number of the packet. */
  predicate Opens(d: Direction, p: DataPacket) {
    p.payload.Sealed? && p.payload == Sealed(d.key, d.id, p.src, p.dst, p.seqNo, p.payload.plain)
  }

  // ---------------------------------------------------------------- one step of each end

  /** What the receiving end holds; `out` is what its local endpoint has been given. */
  datatype Inbox = Inbox(recvSeq: Uint64, live: bool, out: Bytes)

  /** One packet from the queue. The local endpoint takes `room` more bytes before it fails. */
  function Take(d: Direction, r: Inbox, p: DataPacket, room: nat): Inbox {
    if !r.live then r
    else if p.src != d.src || p.seqNo != r.recvSeq || !Opens(d, p) then r.(live := false)
    else if room < |p.payload.plain| then Inbox(Next(r.recvSeq), false, r.out + p.payload.plain[..room])
    else Inbox(Next(r.recvSeq), true, r.out + p.payload.plain)
  }

  function TakeAll(d: Direction, r: Inbox, queue: seq<(DataPacket, nat)>): Inbox
    decreases |queue|
  {
    if queue == [] then r else TakeAll(d, Take(d, r, queue[0].0, queue[0].1), queue[1..])
  }

  lemma {:induction false} ClosedTakesNothing(d: Direction, r: Inbox, queue: seq<(DataPacket, nat)>)
    requires !r.live
    ensures TakeAll(d, r, queue) == r
    decreases |queue|
  {
    if queue != [] {
      ClosedTakesNothing(d, r, queue[1..]);
    }
  }

  /** One read of the sender's local endpoint, and whether sending its packet failed. */
  datatype ReadEvent = ReadEvent(chunk: Bytes, sendFails: bool, ended: bool)

  predicate Last(e: ReadEvent) { e.ended || (e.chunk != [] && e.sendFails) }

  function ChunkOf(e: ReadEvent): seq<Bytes> { if e.chunk == [] then [] else [e.chunk] }

  /** The chunks that get a sequence number; a packet whose sending fails may still have left. */
  function Chunks(events: seq<ReadEvent>): seq<Bytes>
    decreases |events|
  {
    if events == [] then []
    else if Last(events[0]) then ChunkOf(events[0])
    else ChunkOf(events[0]) + Chunks(events[1..])
  }

  function PacketsFrom(d: Direction, seqNo: Uint64, cs: seq<Bytes>): seq<DataPacket>
    decreases |cs|
  {
    if cs == [] then [] else [PacketFor(d, seqNo, cs[0])] + PacketsFrom(d, Next(seqNo), cs[1..])
  }

  lemma {:induction false} PacketsAppend(d: Direction, seqNo: Uint64, cs: seq<Bytes>, c: Bytes)
    ensures PacketsFrom(d, seqNo, cs + [c]) == PacketsFrom(d, seqNo, cs) + [PacketFor(d, Advance(seqNo, |cs|), c)]
    ensures Advance(seqNo, |cs + [c]|) == Next(Advance(seqNo, |cs|))
    decreases |cs|
  {
    if cs == [] {
      assert [c][1..] == [];
    } else {
      assert (cs + [c])[1..] == cs[1..] + [c];
      PacketsAppend(d, Next(seqNo), cs[1..], c);
    }
    AdvanceOnce(seqNo, |cs|);
  }

  lemma ChunksStep(events: seq<ReadEvent>, i: nat, cs: seq<Bytes>)
    requires i < |events| && Chunks(events) == cs + Chunks(events[i..])
    ensures Last(events[i]) ==> Chunks(events) == cs + ChunkOf(events[i])
    ensures !Last(events[i]) ==> Chunks(events) == cs + ChunkOf(events[i]) + Chunks(events[i + 1..])
  {
    assert events[i..][0] == events[i] && events[i..][1..] == events[i + 1..];
    AppendAssociates(cs, ChunkOf(events[i]), Chunks(events[i + 1..]));
  }

  /** One end of a stream. */
  class StreamEnd {
    const local: Raw
    const peer: Raw
    const id: Id16
    const sendKey: nat
    const recvKey: nat
    var sendSeq: Uint64
    var recvSeq: Uint64
    var done: bool
    var written: Bytes

    constructor (local: Raw, peer: Raw, id: Id16, sendKey: nat, recvKey: nat)
      ensures this.local == local && this.peer == peer && this.id == id
      ensures this.sendKey == sendKey && this.recvKey == recvKey
      ensures sendSeq == 0 && Received() == Inbox(0, true, [])
    {
      this.local, this.peer, this.id, this.sendKey, this.recvKey := local, peer, id, sendKey, recvKey;
      sendSeq, recvSeq, done, written := 0, 0, false, [];
    }

    function Outgoing(): Direction { Direction(sendKey, id, local, peer) }

    function Incoming(): Direction { Direction(recvKey, id, peer, local) }

    function Received(): Inbox
      reads this
    {
      Inbox(recvSeq, !done, written)
    }

    method CloseLocal()
      modifies this`done
      ensures done
    {
      done := true;
    }

    /** Number, seal and address one chunk. */
    method SealChunk(chunk: Bytes) returns (packet: DataPacket)
      modifies this`sendSeq
      ensures packet == PacketFor(Outgoing(), old(sendSeq), chunk) && sendSeq == Next(old(sendSeq))
    {
      packet := PacketFor(Outgoing(), sendSeq, chunk);
      sendSeq := Next(sendSeq);
    }

    /** Read the local endpoint until it ends or a send fails; number, seal and send each chunk. */
    method PumpLoop(events: seq<ReadEvent>) returns (packets: seq<DataPacket>)
      modifies this`sendSeq, this`done
      ensures packets == PacketsFrom(Outgoing(), old(sendSeq), Chunks(events))
      ensures sendSeq == Advance(old(sendSeq), |Chunks(events)|)
      ensures done <==> old(done) || exists e :: e in events && Last(e)
    {
      packets := [];
      var i := 0;
      ghost var cs: seq<Bytes> := [];
      while i < |events|
        invariant i <= |events|
        invariant Chunks(events) == cs + Chunks(events[i..])
        invariant packets == PacketsFrom(Outgoing(), old(sendSeq), cs)
        invariant sendSeq == Advance(old(sendSeq), |cs|)
        invariant done == old(done)
        invariant forall j :: 0 <= j < i ==> !Last(events[j])
      {
        var e := events[i];
        ChunksStep(events, i, cs);
        assert cs + [] == cs;
        if |e.chunk| > 0 {
          PacketsAppend(Outgoing(), old(sendSeq), cs, e.chunk);
          var packet := SealChunk(e.chunk);
          packets := packets + [packet];
          cs := cs + [e.chunk];
          if e.sendFails {
            CloseLocal();
            assert Last(e) && e in events;
            return;
          }
        }
        if e.ended {
          CloseLocal();
          assert Last(e) && e in events;
          return;
        }
        i := i + 1;
      }
      assert Chunks(events[i..]) == [] && cs + [] == cs;
    }

    /** Take packets from the queue until the stream is done. */
    method ReceiveLoop(queue: seq<(DataPacket, nat)>)
      modifies this`recvSeq, this`done, this`written
      ensures Received() == TakeAll(Incoming(), old(Received()), queue)
    {
      var i := 0;
      while i < |queue|
        invariant i <= |queue|
        invariant TakeAll(Incoming(), old(Received()), queue) == TakeAll(Incoming(), Received(), queue[i..])
      {
        if done {
          ClosedTakesNothing(Incoming(), Received(), queue[i..]);
          return;
        }
        var (packet, room) := queue[i];
        ghost var before := Received();
        assert queue[i..][0] == queue[i] && queue[i..][1..] == queue[i + 1..];
        if packet.src != peer || packet.seqNo != recvSeq || !Opens(Incoming(), packet) {
          CloseLocal();
        } else {
          var plain := packet.payload.plain;
          recvSeq := Next(recvSeq);
          if room < |plain| {
            written := written + plain[..room];
            CloseLocal();
          } else {
            written := written + plain;
          }
        }
        assert Received() == Take(Incoming(), before, packet, room);
        i := i + 1;
      }
    }
  }

  // ---------------------------------------------------------------- whole runs

  datatype Op =
    | Pump(event: ReadEvent)
    | Deliver(packet: DataPacket, room: nat)
    | CloseSender
    | CloseReceiver

  /** Both ends of one direction; `sent` are the chunks sealed so far. */
  datatype Link = Link(sent: seq<Bytes>, sendSeq: Uint64, sending: bool, inbox: Inbox)

  const START := Link([], 0, true, Inbox(0, true, []))

  function Apply(d: Direction, s: Link, op: Op): Link {
    match op
    case Pump(e) =>
      if !s.sending then s
      else if e.chunk == [] then s.(sending := !Last(e))
      else s.(sent := s.sent + [e.chunk], sendSeq := Next(s.sendSeq), sending := !Last(e))
    case Deliver(p, room) => if p.id != d.id || p.dst != d.dst then s else s.(inbox := Take(d, s.inbox, p, room))
    case CloseSender => s.(sending := false)
    case CloseReceiver => s.(inbox := s.inbox.(live := false))
  }

  function Run(d: Direction, s: Link, ops: seq<Op>): Link
    decreases |ops|
  {
    if ops == [] then s else Run(d, Apply(d, s, ops[0]), ops[1..])
  }

  function Pumps(events: seq<ReadEvent>): seq<Op> { seq(|events|, i requires 0 <= i < |events| => Pump(events[i])) }

  function Deliveries(d: Direction, queue: seq<(DataPacket, nat)>): seq<Op> {
    seq(|queue|, i requires 0 <= i < |queue| => Deliver(queue[i].0, queue[i].1))
  }

  lemma {:induction false} StoppedPumpsNothing(d: Direction, s: Link, events: seq<ReadEvent>)
    requires !s.sending
    ensures Run(d, s, Pumps(events)) == s
    decreases |events|
  {
    if events != [] {
      assert Pumps(events)[1..] == Pumps(events[1..]);
      StoppedPumpsNothing(d, s, events[1..]);
    }
  }

  /** The sender's steps in a run seal exactly the chunks its loop seals. */
  lemma {:induction false} PumpLoopRuns(d: Direction, s: Link, events: seq<ReadEvent>)
    requires s.sending
    ensures Run(d, s, Pumps(events)).sent == s.sent + Chunks(events)
    decreases |events|
  {
    if events == [] {
      assert s.sent + [] == s.sent;
    } else {
      assert Pumps(events)[1..] == Pumps(events[1..]);
      var t := Apply(d, s, Pump(events[0]));
      assert t.sent == s.sent + ChunkOf(events[0]);
      if Last(events[0]) {
        StoppedPumpsNothing(d, t, events[1..]);
      } else {
        PumpLoopRuns(d, t, events[1..]);
        AppendAssociates(s.sent, ChunkOf(events[0]), Chunks(events[1..]));
      }
    }
  }

  /** The receiver's steps in a run leave what its loop leaves. */
  lemma {:induction false} ReceiveLoopRuns(d: Direction, s: Link, queue: seq<(DataPacket, nat)>)
    requires forall q <- queue :: q.0.id == d.id && q.0.dst == d.dst
    ensures Run(d, s, Deliveries(d, queue)).inbox == TakeAll(d, s.inbox, queue)
    decreases |queue|
  {
    if queue != [] {
      assert queue[0] in queue;
      assert Deliveries(d, queue)[1..] == Deliveries(d, queue[1..]);
      ReceiveLoopRuns(d, Apply(d, s, Deliver(queue[0].0, queue[0].1)), queue[1..]);
    }
  }

  /** What the network can put into a packet: all it likes, except that text sealed for this
      direction is text its sender sealed. */
  ghost predicate Obtainable(d: Direction, sent: seq<Bytes>, p: Payload) {
    p.Sealed? && p.key == d.key && p.id == d.id && p.src == d.src && p.dst == d.dst ==>
      exists i: nat :: i < |sent| && p == SealFor(d, Advance(0, i), sent[i])
  }

  ghost predicate Possible(d: Direction, s: Link, op: Op) {
    match op
    case Pump(e) => |e.chunk| <= MAX_READ
    case Deliver(p, _) => Obtainable(d, s.sent, p.payload)
    case _ => true
  }

  ghost predicate PossibleRun(d: Direction, s: Link, ops: seq<Op>)
    decreases |ops|
  {
    ops == [] || (Possible(d, s, ops[0]) && PossibleRun(d, Apply(d, s, ops[0]), ops[1..]))
  }

  /** The receiver has taken exactly the first `n` chunks. */
  ghost predicate InStep(s: Link, n: nat) {
    && n <= |s.sent|
    && s.sendSeq == Advance(0, |s.sent|)
    && s.inbox.recvSeq == Advance(0, n)
    && s.inbox.out <= Concat(s.sent[..n])
    && (s.inbox.live ==> s.inbox.out == Concat(s.sent[..n]))
  }

  /** The same as one property. */
  ghost const IN_STEP: (Link, nat) -> bool := (s: Link, n: nat) => InStep(s, n)

  lemma ConcatTake(cs: seq<Bytes>, n: nat)
    requires n < |cs|
    ensures Concat(cs[..n + 1]) == Concat(cs[..n]) + cs[n]
  {
    ConcatOneMore(cs[..n], cs[n]);
    assert cs[..n + 1] == cs[..n] + [cs[n]];
  }

  lemma {:induction false} ConcatPrefix(cs: seq<Bytes>, n: nat)
    requires n <= |cs|
    ensures Concat(cs[..n]) <= Concat(cs)
  {
    ConcatAppend(cs[..n], cs[n..]);
    assert cs == cs[..n] + cs[n..];
  }

  /** A packet that passes every check carries chunk `n`. */
  lemma AcceptedIsNext(d: Direction, s: Link, n: nat, p: DataPacket)
    requires InStep(s, n) && |s.sent| < UINT64
    requires Obtainable(d, s.sent, p.payload)
    requires p.src == d.src && p.seqNo == s.inbox.recvSeq && Opens(d, p) && p.dst == d.dst
    ensures n < |s.sent| && p.payload.plain == s.sent[n]
  {
    var i: nat :| i < |s.sent| && p.payload == SealFor(d, Advance(0, i), s.sent[i]);
    AdvanceIsAddition(0, i);
    AdvanceIsAddition(0, n);
  }

  lemma DeliverKeeps(d: Direction, s: Link, n: nat, p: DataPacket, room: nat) returns (m: nat)
    requires InStep(s, n) && |s.sent| < UINT64 && Possible(d, s, Deliver(p, room))
    ensures IN_STEP(Apply(d, s, Deliver(p, room)), m)
  {
    var r := s.inbox;
    if p.id != d.id || p.dst != d.dst || !r.live || p.src != d.src || p.seqNo != r.recvSeq || !Opens(d, p) {
      return n;
    }
    AcceptedIsNext(d, s, n, p);
    ConcatTake(s.sent, n);
    AdvanceOnce(0, n);
    return n + 1;
  }

  lemma PumpKeeps(d: Direction, s: Link, n: nat, e: ReadEvent)
    requires InStep(s, n)
    ensures IN_STEP(Apply(d, s, Pump(e)), n)
  {
    if s.sending && e.chunk != [] {
      AdvanceOnce(0, |s.sent|);
      assert (s.sent + [e.chunk])[..n] == s.sent[..n];
    }
  }

  lemma {:induction false} SentGrows(d: Direction, s: Link, ops: seq<Op>)
    ensures s.sent <= Run(d, s, ops).sent
    decreases |ops|
  {
    if ops != [] {
      SentGrows(d, Apply(d, s, ops[0]), ops[1..]);
    }
  }

  lemma {:induction false} RunKeeps(d: Direction, s: Link, n: nat, ops: seq<Op>) returns (m: nat)
    requires InStep(s, n) && PossibleRun(d, s, ops) && |Run(d, s, ops).sent| < UINT64
    ensures IN_STEP(Run(d, s, ops), m)
    decreases |ops|
  {
    if ops == [] {
      return n;
    }
    SentGrows(d, s, ops);
    m := n;
    match ops[0] {
      case Pump(e) => PumpKeeps(d, s, n, e);
      case Deliver(p, room) => m := DeliverKeeps(d, s, n, p, room);
      case _ =>
    }
    m := RunKeeps(d, Apply(d, s, ops[0]), m, ops[1..]);
  }

  /** In every run with fewer than 2^64 chunks, whatever the network does, the receiver has written
      a prefix of what the sender read; while it lives it has written exactly the chunks it counted. */
  lemma WrittenIsPrefixOfRead(d: Direction, ops: seq<Op>)
    requires PossibleRun(d, START, ops) && |Run(d, START, ops).sent| < UINT64
    ensures var s := Run(d, START, ops);
            && s.inbox.out <= Concat(s.sent)
            && (s.inbox.live ==> s.inbox.recvSeq <= |s.sent| && s.inbox.out == Concat(s.sent[..s.inbox.recvSeq]))
  {
    var n := RunKeeps(d, START, 0, ops);
    var s := Run(d, START, ops);
    ConcatPrefix(s.sent, n);
    AdvanceIsAddition(0, n);
  }

  // ---------------------------------------------------------------- what ends a stream

  lemma {:induction false} ClosedStaysClosed(d: Direction, s: Link, ops: seq<Op>)
    ensures !s.inbox.live ==> Run(d, s, ops).inbox == s.inbox
    ensures !s.sending ==> !Run(d, s, ops).sending && Run(d, s, ops).sent == s.sent
    decreases |ops|
  {
    if ops != [] {
      ClosedStaysClosed(d, Apply(d, s, ops[0]), ops[1..]);
    }
  }

  /** A packet of the stream from another sender, with another number than the next one, or that does
      not authenticate ends it: nothing is written for it or for anything that comes after. */
  lemma UnexpectedPacketEndsStream(d: Direction, s: Link, p: DataPacket, room: nat, ops: seq<Op>)
    requires p.id == d.id && p.dst == d.dst
    requires p.src != d.src || p.seqNo != s.inbox.recvSeq || (forall b :: p.payload != Sealed(d.key, d.id, d.src, d.dst, p.seqNo, b))
    ensures var t := Run(d, Apply(d, s, Deliver(p, room)), ops);
            !t.inbox.live && t.inbox.out == s.inbox.out
  {
    if p.payload.Sealed? {
      assert p.payload == Sealed(p.payload.key, p.payload.id, p.payload.src, p.payload.dst, p.payload.seqNo, p.payload.plain);
    }
    ClosedStaysClosed(d, Apply(d, s, Deliver(p, room)), ops);
  }

  /** The expected packet is written whole, or as far as the local endpoint takes it, and then the
      stream ends. */
  lemma ExpectedPacketIsWritten(d: Direction, s: Link, chunk: Bytes, room: nat, ops: seq<Op>)
    requires s.inbox.live
    ensures var t := Apply(d, s, Deliver(PacketFor(d, s.inbox.recvSeq, chunk), room));
            && t.inbox.recvSeq == Next(s.inbox.recvSeq) && t.sent == s.sent
            && (room >= |chunk| ==> t.inbox.live && t.inbox.out == s.inbox.out + chunk)
            && (room < |chunk| ==> !t.inbox.live && Run(d, t, ops).inbox.out == s.inbox.out + chunk[..room])
  {
    ClosedStaysClosed(d, Apply(d, s, Deliver(PacketFor(d, s.inbox.recvSeq, chunk), room)), ops);
  }

  /** The end of the local endpoint, a failed send or a close ends the sending: nothing is sealed after
      the chunk that came with it. */
  lemma SenderStops(d: Direction, s: Link, e: ReadEvent, ops: seq<Op>)
    requires e.ended || (e.chunk != [] && e.sendFails)
    ensures Run(d, Apply(d, s, Pump(e)), ops).sent == s.sent + (if s.sending && e.chunk != [] then [e.chunk] else [])
    ensures Run(d, Apply(d, s, CloseSender), ops).sent == s.sent
  {
    ClosedStaysClosed(d, Apply(d, s, Pump(e)), ops);
    ClosedStaysClosed(d, Apply(d, s, CloseSender), ops);
    assert s.sent + [] == s.sent;
  }

  // ---------------------------------------------------------------- the network that loses nothing

  /** Send each chunk and deliver its packet at once. */
  function InOrder(d: Direction, seqNo: Uint64, cs: seq<Bytes>): seq<Op>
    decreases |cs|
  {
    if cs == [] then []
    else [Pump(ReadEvent(cs[0], false, false)), Deliver(PacketFor(d, seqNo, cs[0]), |cs[0]|)] + InOrder(d, Next(seqNo), cs[1..])
  }

  ghost predicate AllReads(cs: seq<Bytes>) { forall c <- cs :: 0 < |c| <= MAX_READ }

  function Delivered(cs: seq<Bytes>): Link {
    Link(cs, Advance(0, |cs|), true, Inbox(Advance(0, |cs|), true, Concat(cs)))
  }

  lemma {:induction false} RunSplits(d: Direction, s: Link, a: seq<Op>, b: seq<Op>)
    ensures Run(d, s, a + b) == Run(d, Run(d, s, a), b)
    ensures PossibleRun(d, s, a + b) <==> PossibleRun(d, s, a) && PossibleRun(d, Run(d, s, a), b)
    decreases |a|
  {
    if a == [] {
      assert a + b == b;
    } else {
      assert (a + b)[1..] == a[1..] + b;
      RunSplits(d, Apply(d, s, a[0]), a[1..], b);
    }
  }

  lemma LastIsObtainable(d: Direction, cs: seq<Bytes>, c: Bytes)
    ensures Obtainable(d, cs + [c], SealFor(d, Advance(0, |cs|), c))
  {
    assert (cs + [c])[|cs|] == c;
  }

  lemma PumpOne(d: Direction, cs: seq<Bytes>, c: Bytes)
    requires 0 < |c|
    ensures Apply(d, Delivered(cs), Pump(ReadEvent(c, false, false)))
         == Delivered(cs).(sent := cs + [c], sendSeq := Advance(0, |cs| + 1))
  {
    AdvanceOnce(0, |cs|);
  }

  lemma DeliverOne(d: Direction, n: Uint64, out: Bytes, c: Bytes)
    ensures Take(d, Inbox(n, true, out), PacketFor(d, n, c), |c|) == Inbox(Next(n), true, out + c)
  {
  }

  /** Sending one chunk and delivering its packet. */
  lemma OneInOrder(d: Direction, cs: seq<Bytes>, c: Bytes)
    requires 0 < |c| <= MAX_READ
    ensures var pump := Pump(ReadEvent(c, false, false));
            var deliver := Deliver(PacketFor(d, Advance(0, |cs|), c), |c|);
            && Possible(d, Delivered(cs), pump) && Possible(d, Apply(d, Delivered(cs), pump), deliver)
            && Apply(d, Apply(d, Delivered(cs), pump), deliver) == Delivered(cs + [c])
  {
    PumpOne(d, cs, c);
    LastIsObtainable(d, cs, c);
    DeliverOne(d, Advance(0, |cs|), Concat(cs), c);
    AdvanceOnce(0, |cs|);
    ConcatOneMore(cs, c);
  }

  /** When nothing is lost or reordered everything arrives, however often the counter wraps. */
  lemma {:induction false} InOrderDeliversAll(d: Direction, cs: seq<Bytes>, more: seq<Bytes>)
    requires AllReads(more)
    ensures PossibleRun(d, Delivered(cs), InOrder(d, Advance(0, |cs|), more))
    ensures Run(d, Delivered(cs), InOrder(d, Advance(0, |cs|), more)) == Delivered(cs + more)
    decreases |more|
  {
    var n := Advance(0, |cs|);
    if more == [] {
      assert cs + more == cs;
    } else {
      var c := more[0];
      assert c in more;
      OneInOrder(d, cs, c);
      AdvanceOnce(0, |cs|);
      InOrderDeliversAll(d, cs + [c], more[1..]);
      assert cs + [c] + more[1..] == cs + more;
      var two := [Pump(ReadEvent(c, false, false)), Deliver(PacketFor(d, n, c), |c|)];
      TwoOps(d, Delivered(cs), two[0], two[1], InOrder(d, Next(n), more[1..]));
    }
  }

  lemma TwoOps(d: Direction, s: Link, a: Op, b: Op, rest: seq<Op>)
    ensures var t := Apply(d, Apply(d, s, a), b);
            && Run(d, s, [a, b] + rest) == Run(d, t, rest)
            && (PossibleRun(d, s, [a, b] + rest) <==> Possible(d, s, a) && Possible(d, Apply(d, s, a), b) && PossibleRun(d, t, rest))
  {
    assert ([a, b] + rest)[1..] == [b] + rest && ([b] + rest)[1..] == rest;
  }

  // ---------------------------------------------------------------- exactly when it is safe

  ghost predicate SafeFor(d: Direction, cs: seq<Bytes>) {
    forall ops: seq<Op> :: PossibleRun(d, START, ops) && Run(d, START, ops).sent <= cs ==>
      Run(d, START, ops).inbox.out <= Concat(Run(d, START, ops).sent)
  }

  /** A sender that reads 2^64 chunks brings the counter back to zero, and the receiver then takes
      a replay of the very first packet. Short of that no network can do harm. */
  lemma SafeExactlyBeforeWrap(d: Direction, cs: seq<Bytes>)
    requires AllReads(cs)
    ensures SafeFor(d, cs) <==> |cs| < UINT64
  {
    if |cs| < UINT64 {
      forall ops: seq<Op> | PossibleRun(d, START, ops) && Run(d, START, ops).sent <= cs
        ensures Run(d, START, ops).inbox.out <= Concat(Run(d, START, ops).sent)
      {
        WrittenIsPrefixOfRead(d, ops);
      }
    } else {
      ReplayAfterWrap(d, cs[..UINT64]);
    }
  }

  lemma ReplayAfterWrap(d: Direction, cs: seq<Bytes>)
    requires AllReads(cs) && |cs| == UINT64
    ensures exists ops: seq<Op> :: && PossibleRun(d, START, ops) && Run(d, START, ops).sent == cs
                                   && Run(d, START, ops).inbox.out == Concat(cs) + cs[0]
  {
    var replay := Deliver(PacketFor(d, 0, cs[0]), |cs[0]|);
    var ops := InOrder(d, 0, cs);
    assert START == Delivered([]);
    InOrderDeliversAll(d, [], cs);
    assert [] + cs == cs;
    AdvanceIsAddition(0, UINT64);
    RunSplits(d, START, ops, [replay]);
    assert Possible(d, Delivered(cs), replay) by {
      assert Advance(0, 0) == 0;
      assert replay.packet.payload == SealFor(d, Advance(0, 0), cs[0]);
    }
    assert Run(d, Delivered(cs), [replay]) == Apply(d, Delivered(cs), replay);
  }
}
