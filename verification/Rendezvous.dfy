/** The encrypted byte stream between a client and a published service: written bytes are cut into
    chunks, each chunk becomes one sequenced and sealed frame, and reads hand out plain text in
    whatever portions the caller's buffer allows. */
module Rendezvous {
  import opened Common
  import opened NodeId
  import opened Wire
  import opened Crypto

  const MAX_CHUNK := 32 * 1024
  const MAX_FRAME := 0x10_0000

  /** What both ends of one direction agree on. */
  datatype Session = Session(aead: Aead, hash: Bytes -> Digest, id: Raw, cookie: Raw, key: Bytes)

  function Aad(s: Session, seqNo: Uint64): Bytes { s.id + s.cookie + PutUint64(seqNo) }

  /** What the cipher is given for one chunk. */
  datatype Sealing = Sealing(key: Bytes, nonce: Bytes, chunk: Bytes, aad: Bytes)

  function SealingOf(s: Session, seqNo: Uint64, chunk: Bytes): Sealing {
    Sealing(s.key, MakeNonce(s.hash, s.key, seqNo), chunk, Aad(s, seqNo))
  }

  function Seal(s: Session, seqNo: Uint64, chunk: Bytes): Bytes {
    var x := SealingOf(s, seqNo, chunk);
    s.aead.seal(x.key, x.nonce, x.chunk, x.aad)
  }

  lemma AadLayout(s: Session, i: Uint64)
    ensures var x := Aad(s, i);
            |x| == 72 && x[..32] == s.id && x[32..64] == s.cookie && Value(x[64..]) == i
  {
    assert Aad(s, i)[64..] == PutUint64(i);
  }

  /** Equal associated data means equal service, cookie and number. */
  lemma AadIsInjective(s: Session, i: Uint64, t: Session, j: Uint64)
    requires Aad(s, i) == Aad(t, j)
    ensures s.id == t.id && s.cookie == t.cookie && i == j
  {
    var x, y := Aad(s, i), Aad(t, j);
    assert x[..32] == s.id && x[32..64] == s.cookie && x[64..] == PutUint64(i);
    assert y[..32] == t.id && y[32..64] == t.cookie && y[64..] == PutUint64(j);
  }

  /** One frame: length of the rest in 32 bits, sequence number, cipher text. */
  function FrameOf(s: Session, seqNo: Uint64, chunk: Bytes): Bytes {
    PutUint32((8 + |Seal(s, seqNo, chunk)|) % UINT32) + PutUint64(seqNo) + Seal(s, seqNo, chunk)
  }

  predicate IsChunk(c: Bytes) { 1 <= |c| <= MAX_CHUNK }

  ghost predicate AllChunks(cs: seq<Bytes>) { forall c <- cs :: IsChunk(c) }

  /** How one number and one chunk become one frame. */
  type Framer = (Uint64, Bytes) -> Bytes

  function FramerOf(s: Session): Framer { (seqNo, chunk) => FrameOf(s, seqNo, chunk) }

  /** The frames of `cs`, numbered from `seqNo` on. */
  function Frames(f: Framer, seqNo: Uint64, cs: seq<Bytes>): Bytes
    decreases |cs|
  {
    if cs == [] then [] else f(seqNo, cs[0]) + Frames(f, Next(seqNo), cs[1..])
  }

  function Cut(p: Bytes): (cs: seq<Bytes>)
    ensures AllChunks(cs) && Concat(cs) == p
  {
    if p == [] then []
    else
      var n := Portion(MAX_CHUNK, p);
      var cs := [p[..n]] + Cut(p[n..]);
      assert cs[0] == p[..n] && cs[1..] == Cut(p[n..]);
      cs
  }

  // ---------------------------------------------------------------- one read of the wire

  /** A failed read has taken the header, or the whole frame, off the wire. */
  datatype Arrival =
    | Wait
    | SequenceMismatch(rest: Bytes)
    | BadSize(rest: Bytes)
    | AuthenticationFailed(rest: Bytes)
    | Chunk(plain: Bytes, rest: Bytes)

  /** What the next frame on the wire is to a receiver that expects number `want`. */
  function NextChunk(s: Session, want: Uint64, wire: Bytes): Arrival {
    if |wire| < 12 then Wait
    else
      var ln := Value(wire[..4]);
      if GetUint64(wire[4..12]) != want then SequenceMismatch(wire[12..])
      else if ln < 8 + TAG_SIZE || ln > MAX_FRAME then BadSize(wire[12..])
      else if |wire| < 4 + ln then Wait
      else
        match s.aead.open(s.key, MakeNonce(s.hash, s.key, want), wire[12..4 + ln], Aad(s, want))
        case None => AuthenticationFailed(wire[4 + ln..])
        case Some(p) => Chunk(p, wire[4 + ln..])
  }

  /** Every frame a writer emits passes the reader's checks and opens to its chunk. */
  lemma FrameIsRead(s: Session, seqNo: Uint64, chunk: Bytes, rest: Bytes)
    requires Correct(s.aead) && IsChunk(chunk)
    ensures |Seal(s, seqNo, chunk)| == |chunk| + TAG_SIZE
    ensures NextChunk(s, seqNo, FrameOf(s, seqNo, chunk) + rest) == Chunk(chunk, rest)
  {
    var ct := Seal(s, seqNo, chunk);
    assert |ct| == |chunk| + TAG_SIZE;
    var wire := FrameOf(s, seqNo, chunk) + rest;
    assert wire[..4] == PutUint32(8 + |ct|);
    assert wire[4..12] == PutUint64(seqNo);
    assert GetUint64(wire[4..12]) == seqNo by {
      assert Value(PutUint64(seqNo)) == seqNo;
    }
    assert wire[12..12 + |ct|] == ct;
    assert wire[12 + |ct|..] == rest;
  }

  /** Only one thing is delivered: the opened text of a frame that has the expected number, a length
      within bounds, and authenticates under this session and number. */
  lemma DeliveredIsAuthentic(s: Session, want: Uint64, wire: Bytes)
    requires NextChunk(s, want, wire).Chunk?
    ensures var ln := Value(wire[..4]);
            && 12 <= 4 + ln <= |wire| && 8 + TAG_SIZE <= ln <= MAX_FRAME
            && wire[4..12] == PutUint64(want)
            && s.aead.open(s.key, MakeNonce(s.hash, s.key, want), wire[12..4 + ln], Aad(s, want))
               == Some(NextChunk(s, want, wire).plain)
            && NextChunk(s, want, wire).rest == wire[4 + ln..]
  {
  }

  /** Everything else is refused for its own reason: another number (a replay, a gap), a length out of
      bounds, a text that does not authenticate. */
  lemma RefusedFrames(s: Session, want: Uint64, ln: nat, seqNo: Uint64, ct: Bytes, rest: Bytes)
    requires ln < UINT32
    ensures var wire := PutUint32(ln) + PutUint64(seqNo) + ct + rest;
            && (seqNo != want ==> NextChunk(s, want, wire) == SequenceMismatch(ct + rest))
            && (seqNo == want && (ln < 8 + TAG_SIZE || ln > MAX_FRAME) ==> NextChunk(s, want, wire) == BadSize(ct + rest))
            && (seqNo == want && 8 + TAG_SIZE <= ln <= MAX_FRAME && |ct| == ln - 8
                && s.aead.open(s.key, MakeNonce(s.hash, s.key, want), ct, Aad(s, want)).None? ==>
                  NextChunk(s, want, wire) == AuthenticationFailed(rest))
  {
    var wire := PutUint32(ln) + PutUint64(seqNo) + ct + rest;
    assert wire[..4] == PutUint32(ln) && wire[4..12] == PutUint64(seqNo) && wire[12..] == ct + rest;
    assert GetUint64(wire[4..12]) == seqNo by {
      assert Value(PutUint64(seqNo)) == seqNo;
    }
    if |ct| == ln - 8 {
      assert wire[12..4 + ln] == ct && wire[4 + ln..] == rest;
    }
  }

  /** A refused frame gives the reader nothing and moves neither counter nor buffer. */
  lemma RefusedDeliversNothing(s: Session, recvSeq: Uint64, size: nat, wire: Bytes)
    requires var a := NextChunk(s, recvSeq, wire); a.SequenceMismatch? || a.BadSize? || a.AuthenticationFailed?
    ensures var (r, rest, next, buf) := ReadOnce(s, recvSeq, [], size, wire);
            r.Failed? && rest == NextChunk(s, recvSeq, wire).rest && next == recvSeq && buf == []
  {
  }

  lemma {:induction false} FramesAppend(f: Framer, seqNo: Uint64, cs: seq<Bytes>, ds: seq<Bytes>)
    ensures Frames(f, seqNo, cs + ds) == Frames(f, seqNo, cs) + Frames(f, Advance(seqNo, |cs|), ds)
    decreases |cs|
  {
    if cs == [] {
      assert cs + ds == ds;
    } else {
      assert (cs + ds)[1..] == cs[1..] + ds;
      FramesAppend(f, Next(seqNo), cs[1..], ds);
    }
  }

  // ---------------------------------------------------------------- the two ends

  lemma {:induction false} FramesOneMore(f: Framer, first: Uint64, done: seq<Bytes>, chunk: Bytes)
    ensures Frames(f, first, done + [chunk]) == Frames(f, first, done) + f(Advance(first, |done|), chunk)
  {
    var n := Advance(first, |done|);
    FramesAppend(f, first, done, [chunk]);
    assert Frames(f, n, [chunk]) == f(n, chunk) + Frames(f, Next(n), []);
    assert f(n, chunk) + [] == f(n, chunk);
  }

  /** One iteration of a write, on the wire. */
  lemma OneMoreFrame(f: Framer, wire: Bytes, first: Uint64, done: seq<Bytes>, chunk: Bytes)
    ensures var n := Advance(first, |done|);
            && wire + Frames(f, first, done + [chunk]) == wire + Frames(f, first, done) + f(n, chunk)
            && Advance(first, |done| + 1) == Next(n)
  {
    FramesOneMore(f, first, done, chunk);
    AppendAssociates(wire, Frames(f, first, done), f(Advance(first, |done|), chunk));
    AdvanceOnce(first, |done|);
  }

  /** One iteration of a write, on the text. */
  lemma OneMoreChunk(p: Bytes, total: nat, done: seq<Bytes>)
    requires total < |p| && Cut(p) == done + Cut(p[total..])
    ensures var n := Portion(MAX_CHUNK, p[total..]);
            Cut(p) == done + [p[total..][..n]] + Cut(p[total + n..])
  {
    var left := p[total..];
    DropDrop(p, total, Portion(MAX_CHUNK, left));
    AppendAssociates(done, [left[..Portion(MAX_CHUNK, left)]], Cut(left[Portion(MAX_CHUNK, left)..]));
  }

  lemma DropDrop<T>(p: seq<T>, i: nat, j: nat)
    requires i + j <= |p|
    ensures p[i..][j..] == p[i + j..]
  {
  }

  /** Part of the way through a write: `done` are the chunks whose frames are out. */
  ghost predicate Writing(f: Framer, first: Uint64, p: Bytes, before: Bytes, total: nat, done: seq<Bytes>, seqNo: Uint64, wire: Bytes) {
    && total <= |p| && p[..total] == Concat(done)
    && Cut(p) == done + Cut(p[total..])
    && wire == before + Frames(f, first, done)
    && seqNo == Advance(first, |done|)
  }

  /** What a write has done when the connection took `room` bytes or all of them. */
  ghost predicate Wrote(f: Framer, first: Uint64, p: Bytes, room: nat, before: Bytes, total: nat, failed: bool, seqNo: Uint64, wire: Bytes) {
    var all := Frames(f, first, Cut(p));
    var k := Fit(f, first, Cut(p), room);
    && (failed <==> |all| > room)
    && wire == before + (if failed then all[..room] else all)
    && seqNo == Advance(first, k)
    && total <= |p| && p[..total] == Concat(Cut(p)[..k])
    && (!failed ==> total == |p| && k == |Cut(p)|)
  }

  lemma OneMoreText(p: Bytes, total: nat, done: seq<Bytes>, n: nat)
    requires total + n <= |p| && p[..total] == Concat(done)
    ensures p[..total + n] == Concat(done + [p[total..][..n]])
  {
    ConcatAppend(done, [p[total..][..n]]);
    assert p[..total + n] == p[..total] + p[total..][..n];
  }

  /** How many whole frames fit into `room` bytes. */
  function Fit(f: Framer, seqNo: Uint64, cs: seq<Bytes>, room: nat): (k: nat)
    ensures k <= |cs|
    decreases |cs|
  {
    if cs == [] || |f(seqNo, cs[0])| > room then 0
    else 1 + Fit(f, Next(seqNo), cs[1..], room - |f(seqNo, cs[0])|)
  }

  lemma {:induction false} FitAll(f: Framer, seqNo: Uint64, cs: seq<Bytes>, room: nat)
    requires |Frames(f, seqNo, cs)| <= room
    ensures Fit(f, seqNo, cs, room) == |cs|
    decreases |cs|
  {
    if cs != [] {
      FitAll(f, Next(seqNo), cs[1..], room - |f(seqNo, cs[0])|);
    }
  }

  /** There is room for the frames of `done`, but not for the next one. */
  lemma FitStops(f: Framer, seqNo: Uint64, done: seq<Bytes>, rest: seq<Bytes>, room: nat)
    requires rest != [] && |Frames(f, seqNo, done)| <= room
    requires room < |Frames(f, seqNo, done)| + |f(Advance(seqNo, |done|), rest[0])|
    ensures Fit(f, seqNo, done + rest, room) == |done| && |Frames(f, seqNo, done + rest)| > room
    ensures Frames(f, seqNo, done + rest)[..room]
         == Frames(f, seqNo, done) + f(Advance(seqNo, |done|), rest[0])[..room - |Frames(f, seqNo, done)|]
  {
    FramesAppend(f, seqNo, done, rest);
    var n := Advance(seqNo, |done|);
    assert Frames(f, n, rest) == f(n, rest[0]) + Frames(f, Next(n), rest[1..]);
    FitSkips(f, seqNo, done, rest, room);
  }

  lemma {:induction false} FitSkips(f: Framer, seqNo: Uint64, done: seq<Bytes>, rest: seq<Bytes>, room: nat)
    requires rest != [] && |Frames(f, seqNo, done)| <= room
    requires room < |Frames(f, seqNo, done)| + |f(Advance(seqNo, |done|), rest[0])|
    ensures Fit(f, seqNo, done + rest, room) == |done|
    decreases |done|
  {
    if done == [] {
      assert done + rest == rest;
    } else {
      assert (done + rest)[1..] == done[1..] + rest;
      FitSkips(f, Next(seqNo), done[1..], rest, room - |f(seqNo, done[0])|);
    }
  }

  lemma WritingStep(f: Framer, first: Uint64, p: Bytes, before: Bytes, total: nat, done: seq<Bytes>, seqNo: Uint64, wire: Bytes)
    requires Writing(f, first, p, before, total, done, seqNo, wire) && total < |p|
    ensures var n := Portion(MAX_CHUNK, p[total..]);
            var chunk := p[total..][..n];
            && Writing(f, first, p, before, total + n, done + [chunk], Next(seqNo), wire + f(seqNo, chunk))
            && Frames(f, first, done + [chunk]) == Frames(f, first, done) + f(seqNo, chunk)
  {
    var n := Portion(MAX_CHUNK, p[total..]);
    var chunk := p[total..][..n];
    OneMoreFrame(f, before, first, done, chunk);
    OneMoreChunk(p, total, done);
    OneMoreText(p, total, done, n);
    FramesOneMore(f, first, done, chunk);
  }

  lemma WroteSome(f: Framer, first: Uint64, p: Bytes, room: nat, before: Bytes, total: nat, done: seq<Bytes>, seqNo: Uint64, wire: Bytes)
    requires Writing(f, first, p, before, total, done, seqNo, wire) && total < |p| && |Frames(f, first, done)| <= room
    requires |f(seqNo, p[total..][..Portion(MAX_CHUNK, p[total..])])| > room - |Frames(f, first, done)|
    ensures Wrote(f, first, p, room, before, total, true, seqNo,
                  wire + f(seqNo, p[total..][..Portion(MAX_CHUNK, p[total..])])[..room - |Frames(f, first, done)|])
  {
    var n := Portion(MAX_CHUNK, p[total..]);
    var chunk := p[total..][..n];
    var rest := [chunk] + Cut(p[total..][n..]);
    FitStops(f, first, done, rest, room);
    AppendAssociates(before, Frames(f, first, done), f(seqNo, chunk)[..room - |Frames(f, first, done)|]);
    assert Cut(p) == done + rest && Cut(p)[..|done|] == done;
  }

  lemma WroteAll(f: Framer, first: Uint64, p: Bytes, room: nat, before: Bytes, total: nat, done: seq<Bytes>, seqNo: Uint64, wire: Bytes)
    requires Writing(f, first, p, before, total, done, seqNo, wire) && total == |p| && |Frames(f, first, done)| <= room
    ensures Wrote(f, first, p, room, before, total, false, seqNo, wire)
  {
    assert p[total..] == [] && done + Cut([]) == done;
    FitAll(f, first, done, room);
    assert done[..|done|] == done;
  }

  class Sender {
    const session: Session
    var sendSeq: Uint64
    var wire: Bytes

    constructor (session: Session)
      ensures this.session == session && sendSeq == 0 && wire == []
    {
      this.session := session;
      sendSeq, wire := 0, [];
    }

    /** The connection takes only `room` more bytes. */
    method WriteAll(data: Bytes, room: nat) returns (ok: bool, left: nat)
      modifies this`wire
      ensures ok <==> |data| <= room
      ensures wire == old(wire) + if ok then data else data[..room]
      ensures left == if ok then room - |data| else 0
    {
      ok := |data| <= room;
      var n := if ok then |data| else room;
      wire := wire + data[..n];
      left := room - n;
      assert data[..|data|] == data;
    }

    /** The body of the loop below: seal one chunk, send its header and then the cipher text. */
    method WriteChunk(chunk: Bytes, room: nat) returns (ok: bool, left: nat)
      requires Correct(session.aead) && IsChunk(chunk)
      modifies this
      ensures var frame := FramerOf(session)(old(sendSeq), chunk);
              && (ok <==> |frame| <= room)
              && wire == old(wire) + (if ok then frame else frame[..room])
              && sendSeq == (if ok then Next(old(sendSeq)) else old(sendSeq))
              && left == if ok then room - |frame| else 0
    {
      var ct := Seal(session, sendSeq, chunk);
      var frameLen := 8 + |ct|;
      FrameIsRead(session, sendSeq, chunk, []);
      if frameLen > MAX_FRAME {
        return false, room;
      }
      var header := PutUint32(frameLen % UINT32) + PutUint64(sendSeq);
      ghost var before := wire;
      ok, left := WriteAll(header, room);
      if !ok {
        assert header[..room] == (header + ct)[..room];
        return;
      }
      ghost var space := left;
      ok, left := WriteAll(ct, left);
      if ok {
        AppendAssociates(before, header, ct);
        sendSeq := Next(sendSeq);
      } else {
        AppendAssociates(before, header, ct[..space]);
        assert header + ct[..space] == (header + ct)[..room];
      }
    }

    /** The whole frames that fit go out, and of the next one what there is room for; `total` counts
        the bytes in whole frames. */
    method Write(p: Bytes, room: nat) returns (total: nat, failed: bool)
      requires Correct(session.aead)
      modifies this
      ensures Wrote(FramerOf(session), old(sendSeq), p, room, old(wire), total, failed, sendSeq, wire)
    {
      total := 0;
      var left := room;
      ghost var f, first, before, done: seq<Bytes> := FramerOf(session), sendSeq, wire, [];
      while total < |p|
        invariant Writing(f, first, p, before, total, done, sendSeq, wire)
        invariant left == room - |Frames(f, first, done)|
      {
        var n := Portion(MAX_CHUNK, p[total..]);
        ghost var chunk, sent, space := p[total..][..n], wire, left;
        WritingStep(f, first, p, before, total, done, sendSeq, wire);
        var ok;
        ok, left := WriteChunk(p[total..][..n], left);
        if !ok {
          WroteSome(f, first, p, room, before, total, done, sendSeq, sent);
          return total, true;
        }
        done := done + [chunk];
        total := total + n;
      }
      WroteAll(f, first, p, room, before, total, done, sendSeq, wire);
      failed := false;
    }
  }

  datatype ReadResult = Read(bytes: Bytes) | Blocked | Failed

  class Receiver {
    const session: Session
    var recvSeq: Uint64
    var readBuf: Bytes

    constructor (session: Session)
      ensures this.session == session && recvSeq == 0 && readBuf == []
    {
      this.session := session;
      recvSeq, readBuf := 0, [];
    }

    /** Read into a buffer of `size` bytes. `wire` is what the connection holds, `rest` what it
        holds afterwards; a read that would have to wait changes nothing. */
    method Read(size: nat, wire: Bytes) returns (r: ReadResult, rest: Bytes)
      modifies this
      ensures (r, rest, recvSeq, readBuf) == ReadOnce(session, old(recvSeq), old(readBuf), size, wire)
    {
      if |readBuf| > 0 {
        var n := Portion(size, readBuf);
        r := ReadResult.Read(readBuf[..n]);
        readBuf := readBuf[n..];
        return r, wire;
      }
      match NextChunk(session, recvSeq, wire)
      case Wait =>
        return Blocked, wire;
      case Chunk(plain, after) =>
        recvSeq := Next(recvSeq);
        var n := Portion(size, plain);
        readBuf := plain[n..];
        return ReadResult.Read(plain[..n]), after;
      case SequenceMismatch(after) => return Failed, after;
      case BadSize(after) => return Failed, after;
      case AuthenticationFailed(after) => return Failed, after;
    }
  }

  /** The effect of one read, as a function of what the receiver and the wire hold. */
  function ReadOnce(s: Session, recvSeq: Uint64, readBuf: Bytes, size: nat, wire: Bytes): (ReadResult, Bytes, Uint64, Bytes) {
    if |readBuf| > 0 then
      var n := Portion(size, readBuf);
      (ReadResult.Read(readBuf[..n]), wire, recvSeq, readBuf[n..])
    else
      match NextChunk(s, recvSeq, wire)
      case Wait => (Blocked, wire, recvSeq, readBuf)
      case Chunk(plain, after) =>
        var n := Portion(size, plain);
        (ReadResult.Read(plain[..n]), after, Next(recvSeq), plain[n..])
      case SequenceMismatch(after) => (Failed, after, recvSeq, readBuf)
      case BadSize(after) => (Failed, after, recvSeq, readBuf)
      case AuthenticationFailed(after) => (Failed, after, recvSeq, readBuf)
  }

  // ---------------------------------------------------------------- whole runs

  datatype Op = WriteOp(bytes: Bytes) | ReadOp(size: nat)

  /** One direction of the connection, with all bytes ever written and read. */
  datatype Pipe = Pipe(sendSeq: Uint64, recvSeq: Uint64, readBuf: Bytes, wire: Bytes, written: Bytes, read: Bytes, failed: bool)

  const EMPTY := Pipe(0, 0, [], [], [], [], false)

  function Apply(s: Session, p: Pipe, op: Op): Pipe {
    match op
    case WriteOp(b) =>
      p.(sendSeq := Advance(p.sendSeq, |Cut(b)|), wire := p.wire + Frames(FramerOf(s), p.sendSeq, Cut(b)), written := p.written + b)
    case ReadOp(size) =>
      var (r, rest, recvSeq, readBuf) := ReadOnce(s, p.recvSeq, p.readBuf, size, p.wire);
      p.(recvSeq := recvSeq, readBuf := readBuf, wire := rest,
         read := p.read + (if r.Read? then r.bytes else []), failed := p.failed || r.Failed?)
  }

  function Run(s: Session, p: Pipe, ops: seq<Op>): Pipe
    decreases |ops|
  {
    if ops == [] then p else Run(s, Apply(s, p, ops[0]), ops[1..])
  }

  /** `cs` are the chunks on the wire between a receiver and a sender with these counters. */
  ghost predicate OnWire(f: Framer, recvSeq: Uint64, sendSeq: Uint64, wire: Bytes, cs: seq<Bytes>) {
    AllChunks(cs) && wire == Frames(f, recvSeq, cs) && sendSeq == Advance(recvSeq, |cs|)
  }

  ghost predicate Accounted(read: Bytes, buffered: Bytes, cs: seq<Bytes>, written: Bytes) {
    read + buffered + Concat(cs) == written
  }

  ghost predicate Holds(s: Session, p: Pipe, cs: seq<Bytes>) {
    OnWire(FramerOf(s), p.recvSeq, p.sendSeq, p.wire, cs) && Accounted(p.read, p.readBuf, cs, p.written) && !p.failed
  }

  lemma WriteOnWire(f: Framer, recvSeq: Uint64, sendSeq: Uint64, wire: Bytes, cs: seq<Bytes>, ds: seq<Bytes>)
    requires OnWire(f, recvSeq, sendSeq, wire, cs) && AllChunks(ds)
    ensures OnWire(f, recvSeq, Advance(sendSeq, |ds|), wire + Frames(f, sendSeq, ds), cs + ds)
  {
    FramesAppend(f, recvSeq, cs, ds);
    AdvanceAdds(recvSeq, |cs|, |ds|);
  }

  lemma WriteAccounted(read: Bytes, buffered: Bytes, cs: seq<Bytes>, written: Bytes, b: Bytes)
    requires Accounted(read, buffered, cs, written)
    ensures Accounted(read, buffered, cs + Cut(b), written + b)
  {
    ConcatAppend(cs, Cut(b));
    AppendAssociates(read + buffered, Concat(cs), b);
  }

  lemma WriteHolds(s: Session, p: Pipe, cs: seq<Bytes>, b: Bytes)
    requires Holds(s, p, cs)
    ensures Holds(s, Apply(s, p, WriteOp(b)), cs + Cut(b))
  {
    WriteOnWire(FramerOf(s), p.recvSeq, p.sendSeq, p.wire, cs, Cut(b));
    WriteAccounted(p.read, p.readBuf, cs, p.written, b);
  }

  lemma BufferedReadAccounted(read: Bytes, buffered: Bytes, cs: seq<Bytes>, written: Bytes, size: nat)
    requires Accounted(read, buffered, cs, written)
    ensures Accounted(read + buffered[..Portion(size, buffered)], buffered[Portion(size, buffered)..], cs, written)
  {
    var n := Portion(size, buffered);
    assert read + buffered == (read + buffered[..n]) + buffered[n..];
  }

  lemma ChunkReadAccounted(read: Bytes, cs: seq<Bytes>, written: Bytes, size: nat)
    requires Accounted(read, [], cs, written) && cs != []
    ensures Accounted(read + cs[0][..Portion(size, cs[0])], cs[0][Portion(size, cs[0])..], cs[1..], written)
  {
    assert read + [] == read;
    assert read + (cs[0] + Concat(cs[1..])) == read + cs[0] + Concat(cs[1..]);
    BufferedReadAccounted(read, cs[0], cs[1..], written, size);
  }

  lemma ChunkOnWire(s: Session, recvSeq: Uint64, sendSeq: Uint64, wire: Bytes, cs: seq<Bytes>)
    requires Correct(s.aead) && OnWire(FramerOf(s), recvSeq, sendSeq, wire, cs) && cs != []
    ensures NextChunk(s, recvSeq, wire) == Chunk(cs[0], Frames(FramerOf(s), Next(recvSeq), cs[1..]))
    ensures OnWire(FramerOf(s), Next(recvSeq), sendSeq, Frames(FramerOf(s), Next(recvSeq), cs[1..]), cs[1..])
  {
    assert IsChunk(cs[0]);
    FrameIsRead(s, recvSeq, cs[0], Frames(FramerOf(s), Next(recvSeq), cs[1..]));
  }

  /** The chunks left on the wire by one read. */
  function LeftBy(p: Pipe, cs: seq<Bytes>): seq<Bytes> {
    if p.readBuf == [] && cs != [] then cs[1..] else cs
  }

  lemma ReadHolds(s: Session, p: Pipe, cs: seq<Bytes>, size: nat)
    requires Correct(s.aead) && Holds(s, p, cs)
    ensures Holds(s, Apply(s, p, ReadOp(size)), LeftBy(p, cs))
  {
    if p.readBuf != [] {
      BufferedReadAccounted(p.read, p.readBuf, cs, p.written, size);
    } else if cs != [] {
      ChunkOnWire(s, p.recvSeq, p.sendSeq, p.wire, cs);
      ChunkReadAccounted(p.read, cs, p.written, size);
    } else {
      assert p.read + [] == p.read;
    }
  }

  lemma {:induction false} RunHolds(s: Session, p: Pipe, cs: seq<Bytes>, ops: seq<Op>) returns (left: seq<Bytes>)
    requires Correct(s.aead) && Holds(s, p, cs)
    ensures Holds(s, Run(s, p, ops), left)
    decreases |ops|
  {
    if ops == [] {
      return cs;
    }
    match ops[0]
    case WriteOp(b) =>
      WriteHolds(s, p, cs, b);
      left := RunHolds(s, Apply(s, p, ops[0]), cs + Cut(b), ops[1..]);
    case ReadOp(size) =>
      ReadHolds(s, p, cs, size);
      left := RunHolds(s, Apply(s, p, ops[0]), LeftBy(p, cs), ops[1..]);
  }

  /** The connection is a plain byte pipe. After any writes of any sizes, interleaved with reads
      into buffers of any sizes, nothing has failed, and what was read, what waits in the read
      buffer and what the unread wire decrypts to together are what was written. */
  lemma RefinesBytePipe(s: Session, ops: seq<Op>)
    requires Correct(s.aead)
    ensures var p := Run(s, EMPTY, ops);
            && !p.failed
            && exists cs :: && OnWire(FramerOf(s), p.recvSeq, p.sendSeq, p.wire, cs)
                            && Accounted(p.read, p.readBuf, cs, p.written)
  {
    assert Holds(s, EMPTY, []);
    var cs := RunHolds(s, EMPTY, [], ops);
  }

  /** A read with room for at least one byte gets at least one, unless everything has been read. */
  lemma ReadsMakeProgress(s: Session, ops: seq<Op>, size: nat)
    requires Correct(s.aead) && size > 0
    ensures var p := Run(s, EMPTY, ops);
            var q := Apply(s, p, ReadOp(size));
            if p.read == p.written then q.read == p.read else |q.read| > |p.read|
  {
    var p := Run(s, EMPTY, ops);
    assert Holds(s, EMPTY, []);
    var cs := RunHolds(s, EMPTY, [], ops);
    if p.readBuf == [] && cs != [] {
      assert IsChunk(cs[0]);
      FrameIsRead(s, p.recvSeq, cs[0], Frames(FramerOf(s), Next(p.recvSeq), cs[1..]));
    }
  }

  // ---------------------------------------------------------------- a write that fails

  /** The beginning of a frame that was not sent whole. */
  ghost predicate Stub(s: Session, seqNo: Uint64, tail: Bytes) {
    exists chunk :: IsChunk(chunk) && tail < FrameOf(s, seqNo, chunk)
  }

  lemma StubWaits(s: Session, seqNo: Uint64, tail: Bytes)
    requires Correct(s.aead) && Stub(s, seqNo, tail)
    ensures NextChunk(s, seqNo, tail) == Wait
  {
    var chunk :| IsChunk(chunk) && tail < FrameOf(s, seqNo, chunk);
    var frame := FrameOf(s, seqNo, chunk);
    FrameIsRead(s, seqNo, chunk, []);
    assert frame + [] == frame;
    if |tail| >= 12 {
      assert tail[..4] == frame[..4] && tail[4..12] == frame[4..12];
    }
  }

  /** The chunks `cs` are on the wire, and after them the stub of one more frame. */
  ghost predicate HoldsCut(s: Session, p: Pipe, cs: seq<Bytes>, tail: Bytes, sent: Bytes) {
    && AllChunks(cs) && p.wire == Frames(FramerOf(s), p.recvSeq, cs) + tail
    && Stub(s, Advance(p.recvSeq, |cs|), tail)
    && Accounted(p.read, p.readBuf, cs, sent) && !p.failed
  }

  lemma ReadHoldsCut(s: Session, p: Pipe, cs: seq<Bytes>, tail: Bytes, sent: Bytes, size: nat)
    requires Correct(s.aead) && HoldsCut(s, p, cs, tail, sent)
    ensures HoldsCut(s, Apply(s, p, ReadOp(size)), LeftBy(p, cs), tail, sent)
  {
    if p.readBuf != [] {
      BufferedReadAccounted(p.read, p.readBuf, cs, sent, size);
    } else if cs != [] {
      assert IsChunk(cs[0]);
      var rest := Frames(FramerOf(s), Next(p.recvSeq), cs[1..]);
      FrameIsRead(s, p.recvSeq, cs[0], rest + tail);
      AppendAssociates(FrameOf(s, p.recvSeq, cs[0]), rest, tail);
      ChunkReadAccounted(p.read, cs, sent, size);
    } else {
      assert [] + tail == tail && p.read + [] == p.read;
      StubWaits(s, p.recvSeq, tail);
    }
  }

  ghost predicate OnlyReads(ops: seq<Op>) { forall o :: o in ops ==> o.ReadOp? }

  lemma ReadIsPrefix(read: Bytes, buffered: Bytes, cs: seq<Bytes>, sent: Bytes)
    requires Accounted(read, buffered, cs, sent)
    ensures read <= sent
  {
    assert read + buffered + Concat(cs) == read + (buffered + Concat(cs));
  }

  lemma {:induction false} ReadsHoldCut(s: Session, p: Pipe, cs: seq<Bytes>, tail: Bytes, sent: Bytes, ops: seq<Op>)
    requires Correct(s.aead) && HoldsCut(s, p, cs, tail, sent) && OnlyReads(ops)
    ensures !Run(s, p, ops).failed && Run(s, p, ops).read <= sent
    decreases |ops|
  {
    if ops == [] {
      ReadIsPrefix(p.read, p.readBuf, cs, sent);
    } else {
      assert ops[0] in ops;
      ReadHoldsCut(s, p, cs, tail, sent, ops[0].size);
      ReadsHoldCut(s, Apply(s, p, ops[0]), LeftBy(p, cs), tail, sent, ops[1..]);
    }
  }

  /** The connection takes only `room` bytes of a write. */
  function Fail(s: Session, p: Pipe, b: Bytes, room: nat): Pipe
    requires |Frames(FramerOf(s), p.sendSeq, Cut(b))| > room
  {
    p.(sendSeq := Advance(p.sendSeq, Fit(FramerOf(s), p.sendSeq, Cut(b), room)),
       wire := p.wire + Frames(FramerOf(s), p.sendSeq, Cut(b))[..room])
  }

  /** What fits is less than everything, and the next frame does not fit. */
  lemma {:induction false} FitIsMost(f: Framer, seqNo: Uint64, cs: seq<Bytes>, room: nat)
    requires |Frames(f, seqNo, cs)| > room
    ensures var k := Fit(f, seqNo, cs, room);
            k < |cs| && |Frames(f, seqNo, cs[..k])| <= room < |Frames(f, seqNo, cs[..k])| + |f(Advance(seqNo, k), cs[k])|
    decreases |cs|
  {
    var n := |f(seqNo, cs[0])|;
    if n <= room {
      FitIsMost(f, Next(seqNo), cs[1..], room - n);
      var k := Fit(f, Next(seqNo), cs[1..], room - n);
      assert cs[..k + 1][1..] == cs[1..][..k];
    }
  }

  lemma CutFrames(s: Session, seqNo: Uint64, cs: seq<Bytes>, room: nat) returns (tail: Bytes)
    requires AllChunks(cs) && |Frames(FramerOf(s), seqNo, cs)| > room
    ensures var k := Fit(FramerOf(s), seqNo, cs, room);
            && Frames(FramerOf(s), seqNo, cs)[..room] == Frames(FramerOf(s), seqNo, cs[..k]) + tail
            && Stub(s, Advance(seqNo, k), tail)
  {
    var f := FramerOf(s);
    var k := Fit(f, seqNo, cs, room);
    FitIsMost(f, seqNo, cs, room);
    FitStops(f, seqNo, cs[..k], cs[k..], room);
    assert cs == cs[..k] + cs[k..];
    tail := f(Advance(seqNo, k), cs[k])[..room - |Frames(f, seqNo, cs[..k])|];
    assert IsChunk(cs[k]) && tail < FrameOf(s, Advance(seqNo, k), cs[k]);
  }

  lemma FailHoldsCut(s: Session, p: Pipe, cs: seq<Bytes>, b: Bytes, room: nat) returns (more: seq<Bytes>, tail: Bytes)
    requires Holds(s, p, cs) && |Frames(FramerOf(s), p.sendSeq, Cut(b))| > room
    ensures HoldsCut(s, Fail(s, p, b, room), more, tail,
                     p.written + Concat(Cut(b)[..Fit(FramerOf(s), p.sendSeq, Cut(b), room)]))
  {
    var f := FramerOf(s);
    var k := Fit(f, p.sendSeq, Cut(b), room);
    var sent := Cut(b)[..k];
    tail := CutFrames(s, p.sendSeq, Cut(b), room);
    more := cs + sent;
    WriteOnWire(f, p.recvSeq, p.sendSeq, p.wire, cs, sent);
    AppendAssociates(p.wire, Frames(f, p.sendSeq, sent), tail);
    ConcatAppend(cs, sent);
    AppendAssociates(p.read + p.readBuf, Concat(cs), Concat(sent));
    AdvanceAdds(p.recvSeq, |cs|, k);
  }

  /** When a write fails in the middle of whatever frame, the reader gets at most what was written
      before and what the write reported as its total; it never sees the part of a chunk. */
  lemma FailedWriteGivesTotal(s: Session, ops: seq<Op>, b: Bytes, room: nat, later: seq<Op>)
    requires Correct(s.aead) && OnlyReads(later)
    ensures var p := Run(s, EMPTY, ops);
            |Frames(FramerOf(s), p.sendSeq, Cut(b))| > room ==>
              var q := Run(s, Fail(s, p, b, room), later);
              && !q.failed
              && q.read <= p.written + Concat(Cut(b)[..Fit(FramerOf(s), p.sendSeq, Cut(b), room)])
  {
    var p := Run(s, EMPTY, ops);
    assert Holds(s, EMPTY, []);
    var cs := RunHolds(s, EMPTY, [], ops);
    if |Frames(FramerOf(s), p.sendSeq, Cut(b))| > room {
      var more, tail := FailHoldsCut(s, p, cs, b, room);
      ReadsHoldCut(s, Fail(s, p, b, room), more, tail,
                   p.written + Concat(Cut(b)[..Fit(FramerOf(s), p.sendSeq, Cut(b), room)]), later);
    }
  }

  // ---------------------------------------------------------------- the two ends of a connection

  /** The primitives both programs use. */
  datatype Suite = Suite(agreement: Agreement, sha: Bytes -> Digest, hmac: (Bytes, Bytes) -> Digest, aead: Aead)

  function NonceHash(u: Suite): Bytes -> Digest { (key: Bytes) => u.sha(key + Ascii("nonce")) }

  /** What both sides know of one opening: the two nonces, the service and the cookie. */
  datatype Terms = Terms(clientNonce: Bytes, serviceNonce: Bytes, id: Raw, cookie: Raw)

  /** The two keys an end derives from its own private key and the other's public one: the first for
      the bytes that go to the service, the second for those that come from it. */
  function Keys(u: Suite, own: nat, peer: Bytes, t: Terms): (Bytes, Bytes) {
    var info := Ascii("knotroute/rendezvous/v1|") + t.id + t.cookie;
    var m := HkdfOf(u.hmac, u.agreement.shared(own, peer), u.sha(t.clientNonce + t.serviceNonce), info, 64);
    (m[..32], m[32..])
  }

  /** One end: what it sends under and what it expects to receive under. */
  datatype Conn = Conn(send: Session, recv: Session)

  function NewConn(u: Suite, t: Terms, send: Bytes, recv: Bytes): Conn {
    Conn(Session(u.aead, NonceHash(u), t.id, t.cookie, send), Session(u.aead, NonceHash(u), t.id, t.cookie, recv))
  }

  function ClientEnd(u: Suite, own: nat, service: Bytes, t: Terms): Conn {
    var (c2s, s2c) := Keys(u, own, service, t);
    NewConn(u, t, c2s, s2c)
  }

  function ServiceEnd(u: Suite, own: nat, client: Bytes, t: Terms): Conn {
    var (c2s, s2c) := Keys(u, own, client, t);
    NewConn(u, t, s2c, c2s)
  }

  /** Each end expects exactly what the other sends under. */
  lemma EndsMirror(u: Suite, client: nat, service: nat, t: Terms)
    requires Commutes(u.agreement)
    ensures var c := ClientEnd(u, client, u.agreement.public(service), t);
            var v := ServiceEnd(u, service, u.agreement.public(client), t);
            (c.send, c.recv) == (v.recv, v.send)
  {
    assert u.agreement.shared(client, u.agreement.public(service)) == u.agreement.shared(service, u.agreement.public(client));
  }

  datatype DuplexOp = AtClient(op: Op) | AtService(op: Op)

  /** The bytes on their way to the service and those on their way back. */
  datatype Duplex = Duplex(up: Pipe, down: Pipe)

  /** Each end writes under its own sending session and reads under its own receiving session. */
  function ApplyDuplex(client: Conn, service: Conn, d: Duplex, o: DuplexOp): Duplex {
    match o
    case AtClient(op) =>
      if op.WriteOp? then d.(up := Apply(client.send, d.up, op)) else d.(down := Apply(client.recv, d.down, op))
    case AtService(op) =>
      if op.WriteOp? then d.(down := Apply(service.send, d.down, op)) else d.(up := Apply(service.recv, d.up, op))
  }

  function RunDuplex(client: Conn, service: Conn, d: Duplex, ops: seq<DuplexOp>): Duplex
    decreases |ops|
  {
    if ops == [] then d else RunDuplex(client, service, ApplyDuplex(client, service, d, ops[0]), ops[1..])
  }

  /** Nothing failed, and what was read, what is buffered and what the unread wire decrypts to under
      the reader's session are together what was written. */
  ghost predicate IsBytePipe(reader: Session, p: Pipe) { exists cs :: Holds(reader, p, cs) }

  lemma OpKeepsPipe(s: Session, p: Pipe, op: Op)
    requires Correct(s.aead) && IsBytePipe(s, p)
    ensures IsBytePipe(s, Apply(s, p, op))
  {
    var cs :| Holds(s, p, cs);
    match op
    case WriteOp(b) => WriteHolds(s, p, cs, b);
    case ReadOp(size) => ReadHolds(s, p, cs, size);
  }

  lemma {:induction false} DuplexKeepsPipes(client: Conn, service: Conn, d: Duplex, ops: seq<DuplexOp>)
    requires (client.send, client.recv) == (service.recv, service.send)
    requires Correct(client.send.aead) && Correct(client.recv.aead)
    requires IsBytePipe(service.recv, d.up) && IsBytePipe(client.recv, d.down)
    ensures var e := RunDuplex(client, service, d, ops);
            IsBytePipe(service.recv, e.up) && IsBytePipe(client.recv, e.down)
    decreases |ops|
  {
    if ops != [] {
      OpKeepsPipe(service.recv, d.up, ops[0].op);
      OpKeepsPipe(client.recv, d.down, ops[0].op);
      DuplexKeepsPipes(client, service, ApplyDuplex(client, service, d, ops[0]), ops[1..]);
    }
  }

  /** Two ends that know nothing of each other but public keys and nonces have a byte pipe in each
      direction, whatever either of them writes and reads in whatever order. */
  lemma EndsAreBytePipes(u: Suite, client: nat, service: nat, t: Terms, ops: seq<DuplexOp>)
    requires Correct(u.aead) && Commutes(u.agreement)
    ensures var c := ClientEnd(u, client, u.agreement.public(service), t);
            var v := ServiceEnd(u, service, u.agreement.public(client), t);
            var d := RunDuplex(c, v, Duplex(EMPTY, EMPTY), ops);
            IsBytePipe(v.recv, d.up) && IsBytePipe(c.recv, d.down)
  {
    var c := ClientEnd(u, client, u.agreement.public(service), t);
    var v := ServiceEnd(u, service, u.agreement.public(client), t);
    EndsMirror(u, client, service, t);
    assert Holds(v.recv, EMPTY, []) && Holds(c.recv, EMPTY, []);
    DuplexKeepsPipes(c, v, Duplex(EMPTY, EMPTY), ops);
  }

  // ---------------------------------------------------------------- no nonce twice

  /** The two keys are the first two blocks of section 2.3 of RFC 5869 for the shared secret. */
  lemma KeysAreBlocks(u: Suite, own: nat, peer: Bytes, t: Terms)
    ensures var prk := u.hmac(u.sha(t.clientNonce + t.serviceNonce), u.agreement.shared(own, peer));
            var info := Ascii("knotroute/rendezvous/v1|") + t.id + t.cookie;
            var first := u.hmac(prk, info + [1]);
            Keys(u, own, peer, t) == (first, u.hmac(prk, first + info + [2]))
  {
    var prk := u.hmac(u.sha(t.clientNonce + t.serviceNonce), u.agreement.shared(own, peer));
    var info := Ascii("knotroute/rendezvous/v1|") + t.id + t.cookie;
    var first := u.hmac(prk, info + [1]);
    var m := first + u.hmac(prk, first + info + [2]);
    TwoBlocks(u.hmac, prk, info);
    assert m[..64] == m && m[..32] == first && m[32..] == u.hmac(prk, first + info + [2]);
  }

  /** The client sends under the first block and the service under the second. */
  lemma EndsUseBlocks(u: Suite, client: nat, service: nat, t: Terms)
    ensures var c := ClientEnd(u, client, u.agreement.public(service), t);
            var v := ServiceEnd(u, service, u.agreement.public(client), t);
            && (c.send.key, c.recv.key) == Keys(u, client, u.agreement.public(service), t)
            && (v.recv.key, v.send.key) == Keys(u, service, u.agreement.public(client), t)
  {
  }

  /** All four sessions belong to the agreed service and cookie, and their nonces start with the digest
      of the key followed by the ASCII text `nonce`. */
  lemma EndsUseTerms(u: Suite, own: nat, peer: Bytes, t: Terms, s: Session, key: Bytes)
    requires var c, v := ClientEnd(u, own, peer, t), ServiceEnd(u, own, peer, t);
             s == c.send || s == c.recv || s == v.send || s == v.recv
    ensures s.aead == u.aead && s.id == t.id && s.cookie == t.cookie
    ensures s.hash(key) == u.sha(key + [110, 111, 110, 99, 101])
  {
    assert Ascii("nonce") == [110, 111, 110, 99, 101];
  }

  function Sealings(s: Session, seqNo: Uint64, cs: seq<Bytes>): seq<Sealing>
    decreases |cs|
  {
    if cs == [] then [] else [SealingOf(s, seqNo, cs[0])] + Sealings(s, Next(seqNo), cs[1..])
  }

  /** Everything both ends seal in a run, in order. */
  function AllSealings(client: Conn, service: Conn, d: Duplex, ops: seq<DuplexOp>): seq<Sealing>
    decreases |ops|
  {
    if ops == [] then []
    else SealingsOf(client, service, d, ops[0]) + AllSealings(client, service, ApplyDuplex(client, service, d, ops[0]), ops[1..])
  }

  function SealingsOf(client: Conn, service: Conn, d: Duplex, o: DuplexOp): seq<Sealing> {
    if !o.op.WriteOp? then []
    else if o.AtClient? then Sealings(client.send, d.up.sendSeq, Cut(o.op.bytes))
    else Sealings(service.send, d.down.sendSeq, Cut(o.op.bytes))
  }

  /** How many chunks one end writes. */
  function ChunkCount(ops: seq<DuplexOp>, atClient: bool): nat {
    if ops == [] then 0
    else (if ops[0].AtClient? == atClient && ops[0].op.WriteOp? then |Cut(ops[0].op.bytes)| else 0) + ChunkCount(ops[1..], atClient)
  }

  /** `x` was sealed by `s` under a number from `lo` up to `hi`. */
  ghost predicate SealedBy(x: Sealing, s: Session, lo: nat, hi: nat) {
    exists n: Uint64, c :: lo <= n < hi && x == SealingOf(s, n, c)
  }

  /** No two of them were made with one key and one nonce. */
  ghost predicate NoNonceTwice(xs: seq<Sealing>) {
    forall i, j :: 0 <= i < j < |xs| ==> (xs[i].key, xs[i].nonce) != (xs[j].key, xs[j].nonce)
  }

  lemma {:induction false} SealingsAreNumbered(s: Session, seqNo: Uint64, cs: seq<Bytes>)
    requires seqNo + |cs| < UINT64
    ensures forall x :: x in Sealings(s, seqNo, cs) ==> SealedBy(x, s, seqNo, seqNo + |cs|)
    ensures NoNonceTwice(Sealings(s, seqNo, cs))
    decreases |cs|
  {
    if cs != [] {
      SealingsAreNumbered(s, Next(seqNo), cs[1..]);
      var rest := Sealings(s, Next(seqNo), cs[1..]);
      var head := SealingOf(s, seqNo, cs[0]);
      assert SealedBy(head, s, seqNo, seqNo + 1);
      forall x | x in rest ensures SealedBy(x, s, seqNo, seqNo + |cs|) && (x.key, x.nonce) != (head.key, head.nonce) {
        NumbersApart(s, head, x, seqNo, seqNo + 1, seqNo + |cs|);
      }
    }
  }

  lemma NumbersApart(s: Session, x: Sealing, y: Sealing, lo: nat, mid: nat, hi: nat)
    requires lo <= mid && SealedBy(x, s, lo, mid) && SealedBy(y, s, mid, hi)
    ensures SealedBy(y, s, lo, hi) && x.nonce != y.nonce
  {
    var i: Uint64, c :| lo <= i < mid && x == SealingOf(s, i, c);
    var j: Uint64, e :| mid <= j < hi && y == SealingOf(s, j, e);
    if x.nonce == y.nonce {
      NoncesDiffer(s.hash, s.key, i, j);
    }
  }

  /** `x` belongs to one of the two ends, under a number that is not used up yet. */
  ghost predicate SealedLater(x: Sealing, client: Conn, service: Conn, d: Duplex, ops: seq<DuplexOp>) {
    || SealedBy(x, client.send, d.up.sendSeq, d.up.sendSeq + ChunkCount(ops, true))
    || SealedBy(x, service.send, d.down.sendSeq, d.down.sendSeq + ChunkCount(ops, false))
  }

  ghost predicate HasNumbersLeft(d: Duplex, ops: seq<DuplexOp>) {
    && d.up.sendSeq + ChunkCount(ops, true) < UINT64
    && d.down.sendSeq + ChunkCount(ops, false) < UINT64
  }

  lemma WriteAdvances(client: Conn, service: Conn, d: Duplex, ops: seq<DuplexOp>)
    requires ops != [] && HasNumbersLeft(d, ops)
    ensures var e := ApplyDuplex(client, service, d, ops[0]);
            && HasNumbersLeft(e, ops[1..])
            && e.up.sendSeq == d.up.sendSeq + ChunkCount(ops, true) - ChunkCount(ops[1..], true)
            && e.down.sendSeq == d.down.sendSeq + ChunkCount(ops, false) - ChunkCount(ops[1..], false)
  {
    var o := ops[0];
    if o.op.WriteOp? {
      if o.AtClient? {
        AdvanceIsAddition(d.up.sendSeq, |Cut(o.op.bytes)|);
      } else {
        AdvanceIsAddition(d.down.sendSeq, |Cut(o.op.bytes)|);
      }
    }
  }

  lemma FirstSealings(client: Conn, service: Conn, d: Duplex, ops: seq<DuplexOp>)
    requires ops != [] && HasNumbersLeft(d, ops)
    ensures var e := ApplyDuplex(client, service, d, ops[0]);
            var xs := SealingsOf(client, service, d, ops[0]);
            && NoNonceTwice(xs)
            && forall x :: x in xs ==> (ops[0].AtClient? && SealedBy(x, client.send, d.up.sendSeq, e.up.sendSeq))
                                       || (ops[0].AtService? && SealedBy(x, service.send, d.down.sendSeq, e.down.sendSeq))
  {
    WriteAdvances(client, service, d, ops);
    var o := ops[0];
    if o.op.WriteOp? {
      if o.AtClient? {
        SealingsAreNumbered(client.send, d.up.sendSeq, Cut(o.op.bytes));
      } else {
        SealingsAreNumbered(service.send, d.down.sendSeq, Cut(o.op.bytes));
      }
    }
  }

  lemma FirstAndLaterApart(client: Conn, service: Conn, d: Duplex, ops: seq<DuplexOp>, x: Sealing, y: Sealing)
    requires client.send.key != service.send.key && ops != [] && HasNumbersLeft(d, ops)
    requires x in SealingsOf(client, service, d, ops[0])
    requires SealedLater(y, client, service, ApplyDuplex(client, service, d, ops[0]), ops[1..])
    ensures (x.key, x.nonce) != (y.key, y.nonce)
  {
    var e := ApplyDuplex(client, service, d, ops[0]);
    FirstSealings(client, service, d, ops);
    WriteAdvances(client, service, d, ops);
    if x.key == y.key {
      if ops[0].AtClient? {
        NumbersApart(client.send, x, y, d.up.sendSeq, e.up.sendSeq, e.up.sendSeq + ChunkCount(ops[1..], true));
      } else {
        NumbersApart(service.send, x, y, d.down.sendSeq, e.down.sendSeq, e.down.sendSeq + ChunkCount(ops[1..], false));
      }
    }
  }

  lemma SealedSooner(x: Sealing, client: Conn, service: Conn, d: Duplex, ops: seq<DuplexOp>)
    requires ops != [] && HasNumbersLeft(d, ops)
    requires x in SealingsOf(client, service, d, ops[0])
          || SealedLater(x, client, service, ApplyDuplex(client, service, d, ops[0]), ops[1..])
    ensures SealedLater(x, client, service, d, ops)
  {
    FirstSealings(client, service, d, ops);
    WriteAdvances(client, service, d, ops);
  }

  lemma {:induction false} RunSealsOnce(client: Conn, service: Conn, d: Duplex, ops: seq<DuplexOp>)
    requires client.send.key != service.send.key && HasNumbersLeft(d, ops)
    ensures NoNonceTwice(AllSealings(client, service, d, ops))
    ensures forall x :: x in AllSealings(client, service, d, ops) ==> SealedLater(x, client, service, d, ops)
    decreases |ops|
  {
    if ops != [] {
      var e := ApplyDuplex(client, service, d, ops[0]);
      var first, later := SealingsOf(client, service, d, ops[0]), AllSealings(client, service, e, ops[1..]);
      WriteAdvances(client, service, d, ops);
      FirstSealings(client, service, d, ops);
      RunSealsOnce(client, service, e, ops[1..]);
      forall x | x in first + later ensures SealedLater(x, client, service, d, ops) {
        SealedSooner(x, client, service, d, ops);
      }
      forall x, y | x in first && y in later ensures (x.key, x.nonce) != (y.key, y.nonce) {
        FirstAndLaterApart(client, service, d, ops, x, y);
      }
      JoinedOnce(first, later);
    }
  }

  lemma JoinedOnce(first: seq<Sealing>, later: seq<Sealing>)
    requires NoNonceTwice(first) && NoNonceTwice(later)
    requires forall x, y :: x in first && y in later ==> (x.key, x.nonce) != (y.key, y.nonce)
    ensures NoNonceTwice(first + later)
  {
    var xs := first + later;
    forall i, j | 0 <= i < j < |xs| ensures (xs[i].key, xs[i].nonce) != (xs[j].key, xs[j].nonce) {
      if i < |first| <= j {
        assert xs[i] in first && xs[j] in later;
      }
    }
  }

  /** What both ends may do without a counter wrapping. */
  ghost predicate Short(ops: seq<DuplexOp>) {
    ChunkCount(ops, true) < UINT64 && ChunkCount(ops, false) < UINT64
  }

  ghost predicate NeverTwice(client: Conn, service: Conn) {
    forall ops :: Short(ops) ==> NoNonceTwice(AllSealings(client, service, Duplex(EMPTY, EMPTY), ops))
  }

  /** With one key for both directions the first chunks of the two ends already share a nonce. */
  lemma OneKeyRepeats(client: Conn, service: Conn)
    requires client.send.key == service.send.key && client.send.hash == service.send.hash
    ensures !NeverTwice(client, service)
  {
    var b: Bytes := [0];
    var ops := [AtClient(WriteOp(b)), AtService(WriteOp(b))];
    var d := Duplex(EMPTY, EMPTY);
    assert Cut(b) == [b] by {
      assert b[..1] == b && b[1..] == [];
    }
    var e := ApplyDuplex(client, service, d, ops[0]);
    assert ops[1..] == [ops[1]] && [ops[1]][1..] == [];
    var x, y := SealingOf(client.send, 0, b), SealingOf(service.send, 0, b);
    assert Sealings(client.send, 0, [b]) == [x] && Sealings(service.send, 0, [b]) == [y];
    assert AllSealings(client, service, e, ops[1..]) == [y] + AllSealings(client, service, ApplyDuplex(client, service, e, ops[1]), []);
    var all := AllSealings(client, service, d, ops);
    assert all == [x] + [y];
    assert (all[0].key, all[0].nonce) == (all[1].key, all[1].nonce);
    assert ChunkCount([ops[1]], true) == 0 && ChunkCount([ops[1]], false) == 1;
    assert Short(ops);
  }

  /** The two ends of a connection never seal two chunks under one key and one nonce, in any run with
      fewer than 2^64 chunks each, exactly if the two blocks their keys come from differ. */
  lemma NeverTwiceExactlyWhenBlocksDiffer(u: Suite, client: nat, service: nat, t: Terms)
    requires Commutes(u.agreement)
    ensures var c := ClientEnd(u, client, u.agreement.public(service), t);
            var v := ServiceEnd(u, service, u.agreement.public(client), t);
            var (first, second) := Keys(u, client, u.agreement.public(service), t);
            NeverTwice(c, v) <==> first != second
  {
    var c := ClientEnd(u, client, u.agreement.public(service), t);
    var v := ServiceEnd(u, service, u.agreement.public(client), t);
    EndsMirror(u, client, service, t);
    EndsUseBlocks(u, client, service, t);
    if c.send.key == v.send.key {
      OneKeyRepeats(c, v);
    } else {
      forall ops | Short(ops) ensures NoNonceTwice(AllSealings(c, v, Duplex(EMPTY, EMPTY), ops)) {
        RunSealsOnce(c, v, Duplex(EMPTY, EMPTY), ops);
      }
    }
  }
}
