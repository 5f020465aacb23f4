/** The binary formats: length-prefixed frames on a peer connection, routed packets, circuit cells
    and relay payloads. Integers are big-endian. */
module Wire {
  import opened NodeId

  type Bytes = seq<Byte>
  type Id16 = s: Bytes | |s| == 16 witness seq(16, _ => 0)

  datatype Result<T> = Ok(value: T) | Err

  const PROTOCOL_VERSION: Byte := 1
  const MAX_FRAME_SIZE := 4 * 1024 * 1024
  const UINT32 := 0x1_0000_0000
  const UINT64 := 0x1_0000_0000_0000_0000

  type Uint64 = v: nat | v < UINT64

  lemma WordSizes()
    ensures Pow256(4) == UINT32 && Pow256(8) == UINT64
  {
    Squares(4);
  }

  function PutUint32(v: nat): (b: Bytes)
    requires v < UINT32
    ensures |b| == 4 && Value(b) == v
  {
    WordSizes();
    Digits(v, 4)
  }

  function PutUint64(v: Uint64): (b: Bytes)
    ensures |b| == 8 && Value(b) == v
  {
    WordSizes();
    Digits(v, 8)
  }

  function GetUint64(b: Bytes): (v: Uint64)
    requires |b| == 8
    ensures PutUint64(v) == b
  {
    WordSizes();
    CompareIsNumericOrder(PutUint64(Value(b)), b);
    Value(b)
  }

  /** The counters are 64 bits wide and wrap. */
  function Next(n: Uint64): Uint64 { if n + 1 == UINT64 then 0 else n + 1 }

  function Advance(n: Uint64, k: nat): Uint64
    decreases k
  {
    if k == 0 then n else Advance(Next(n), k - 1)
  }

  lemma {:induction false} AdvanceAdds(n: Uint64, j: nat, k: nat)
    ensures Advance(Advance(n, j), k) == Advance(n, j + k)
    decreases j
  {
    if j > 0 {
      AdvanceAdds(Next(n), j - 1, k);
    }
  }

  lemma {:induction false} AdvanceIsAddition(n: Uint64, k: nat)
    requires n + k <= UINT64
    ensures Advance(n, k) == if n + k == UINT64 then 0 else n + k
    decreases k
  {
    if k > 0 && n + 1 < UINT64 {
      AdvanceIsAddition(n + 1, k - 1);
    }
  }

  lemma AppendAssociates<T>(a: seq<T>, b: seq<T>, c: seq<T>)
    ensures a + b + c == a + (b + c)
  {
  }

  /** How much of `b` fits a buffer of `size` bytes. */
  function Portion(size: nat, b: Bytes): (n: nat)
    ensures n <= |b| && n <= size && (n == |b| || n == size)
  {
    if size < |b| then size else |b|
  }

  function Concat(cs: seq<Bytes>): Bytes {
    if cs == [] then [] else cs[0] + Concat(cs[1..])
  }

  lemma {:induction false} ConcatAppend(cs: seq<Bytes>, ds: seq<Bytes>)
    ensures Concat(cs + ds) == Concat(cs) + Concat(ds)
  {
    if cs == [] {
      assert cs + ds == ds;
    } else {
      assert (cs + ds)[1..] == cs[1..] + ds;
      ConcatAppend(cs[1..], ds);
    }
  }

  lemma AdvanceOnce(n: Uint64, k: nat)
    ensures Advance(n, k + 1) == Next(Advance(n, k))
  {
    AdvanceAdds(n, k, 1);
    assert Advance(Advance(n, k), 1) == Next(Advance(n, k));
  }

  lemma ConcatOneMore(cs: seq<Bytes>, c: Bytes)
    ensures Concat(cs + [c]) == Concat(cs) + c
  {
    ConcatAppend(cs, [c]);
    assert Concat([c]) == c + [];
  }

  // ---------------------------------------------------------------- frames

  /** A byte stream that has been written in full; a short read takes what is left and fails. */
  class Stream {
    var data: Bytes

    constructor (data: Bytes)
      ensures this.data == data
    {
      this.data := data;
    }

    method Write(b: Bytes)
      modifies this
      ensures data == old(data) + b
    {
      data := data + b;
    }

    method ReadFull(n: nat) returns (r: Result<Bytes>)
      modifies this
      ensures n <= |old(data)| ==> r == Ok(old(data)[..n]) && data == old(data)[n..]
      ensures n > |old(data)| ==> r == Err && data == []
    {
      if |data| < n {
        data := [];
        return Err;
      }
      r := Ok(data[..n]);
      data := data[n..];
    }
  }

  datatype Frame = Frame(typ: Byte, payload: Bytes)

  predicate Fits(f: Frame) { |f.payload| + 1 <= MAX_FRAME_SIZE }

  function FrameBytes(f: Frame): Bytes
    requires Fits(f)
  {
    PutUint32(|f.payload| + 1) + [f.typ] + f.payload
  }

  method WriteFrame(w: Stream, f: Frame) returns (ok: bool)
    modifies w
    ensures ok <==> Fits(f)
    ensures w.data == if ok then old(w.data) + FrameBytes(f) else old(w.data)
  {
    if |f.payload| + 1 > MAX_FRAME_SIZE {
      return false;
    }
    w.Write(PutUint32(|f.payload| + 1));
    w.Write([f.typ]);
    w.Write(f.payload);
    return true;
  }

  /** What one read makes of a stream: a frame and the rest, or nothing. */
  function FirstFrame(data: Bytes): Result<(Frame, Bytes)> {
    if |data| < 4 then Err
    else
      var size := Value(data[..4]);
      if size < 1 || size > MAX_FRAME_SIZE || |data| < 4 + size then Err
      else Ok((Frame(data[4], data[5..4 + size]), data[4 + size..]))
  }

  method ReadFrame(r: Stream) returns (f: Result<Frame>)
    modifies r
    ensures match FirstFrame(old(r.data))
            case Ok((frame, rest)) => f == Ok(frame) && r.data == rest
            case Err => f == Err
  {
    ghost var before := r.data;
    var header := r.ReadFull(4);
    if header.Err? {
      return Err;
    }
    var size := Value(header.value);
    if size < 1 || size > MAX_FRAME_SIZE {
      return Err;
    }
    var buf := r.ReadFull(size);
    if buf.Err? {
      return Err;
    }
    assert buf.value == before[4..4 + size];
    assert buf.value[1..] == before[5..4 + size];
    return Ok(Frame(buf.value[0], buf.value[1..]));
  }

  lemma FirstFrameIsFirst(f: Frame, rest: Bytes)
    requires Fits(f)
    ensures FirstFrame(FrameBytes(f) + rest) == Ok((f, rest))
  {
    var data := FrameBytes(f) + rest;
    var size := |f.payload| + 1;
    assert data[..4] == PutUint32(size);
    assert data[5..4 + size] == f.payload;
    assert data[4 + size..] == rest;
  }

  /** Nothing but a frame that fits, in its one encoding, is taken for one. */
  lemma FrameReencodes(data: Bytes)
    requires FirstFrame(data).Ok?
    ensures var (f, rest) := FirstFrame(data).value;
            Fits(f) && data == FrameBytes(f) + rest
  {
    var (f, rest) := FirstFrame(data).value;
    var size := Value(data[..4]);
    CompareIsNumericOrder(PutUint32(size), data[..4]);
    assert data == data[..4] + [data[4]] + data[5..4 + size] + data[4 + size..];
  }

  ghost predicate AllFit(fs: seq<Frame>) { forall i :: 0 <= i < |fs| ==> Fits(fs[i]) }

  function Written(fs: seq<Frame>): Bytes
    requires AllFit(fs)
  {
    if fs == [] then [] else FrameBytes(fs[0]) + Written(fs[1..])
  }

  /** Read frames until the stream gives none any more. */
  function ReadAll(data: Bytes): (seq<Frame>, Bytes)
    decreases |data|
  {
    match FirstFrame(data)
    case Err => ([], data)
    case Ok((f, rest)) =>
      var (fs, left) := ReadAll(rest);
      ([f] + fs, left)
  }

  lemma ReadAllStep(f: Frame, rest: Bytes)
    requires Fits(f)
    ensures ReadAll(FrameBytes(f) + rest) == ([f] + ReadAll(rest).0, ReadAll(rest).1)
  {
    FirstFrameIsFirst(f, rest);
  }

  /** Reading recovers exactly the frames that were written, whatever follows them, as long as
      what follows is not a complete frame itself; in particular with nothing left over. */
  lemma {:induction false} FramesRoundTrip(fs: seq<Frame>, tail: Bytes)
    requires AllFit(fs) && FirstFrame(tail).Err?
    ensures ReadAll(Written(fs) + tail) == (fs, tail)
  {
    if fs == [] {
      assert Written(fs) + tail == tail;
    } else {
      assert Fits(fs[0]);
      assert Written(fs) + tail == FrameBytes(fs[0]) + (Written(fs[1..]) + tail) by {
        AppendAssociates(FrameBytes(fs[0]), Written(fs[1..]), tail);
      }
      ReadAllStep(fs[0], Written(fs[1..]) + tail);
      FramesRoundTrip(fs[1..], tail);
      assert fs == [fs[0]] + fs[1..];
    }
  }

  /** A cut inside a frame is never mistaken for a frame. */
  lemma CutFrameIsNoFrame(f: Frame, n: nat)
    requires Fits(f) && n < |FrameBytes(f)|
    ensures FirstFrame(FrameBytes(f)[..n]).Err?
  {
    if n >= 4 {
      assert FrameBytes(f)[..n][..4] == PutUint32(|f.payload| + 1);
    }
  }

  /** A connection that breaks after any number of bytes has delivered a prefix of the frames. */
  lemma {:induction false} BrokenStreamGivesPrefix(fs: seq<Frame>, n: nat)
    requires AllFit(fs) && n <= |Written(fs)|
    ensures ReadAll(Written(fs)[..n]).0 <= fs
  {
    if fs != [] {
      var head := FrameBytes(fs[0]);
      if n < |head| {
        assert Written(fs)[..n] == head[..n];
        CutFrameIsNoFrame(fs[0], n);
      } else {
        var more := Written(fs[1..])[..n - |head|];
        assert Written(fs)[..n] == head + more;
        FirstFrameIsFirst(fs[0], more);
        BrokenStreamGivesPrefix(fs[1..], n - |head|);
      }
    }
  }

  // ---------------------------------------------------------------- filling a buffer

  method CopyTo(out: array<Byte>, off: nat, src: Bytes)
    requires off + |src| <= out.Length
    modifies out
    ensures out[..off + |src|] == old(out[..off]) + src
  {
    for i := 0 to |src|
      invariant out[..off] == old(out[..off])
      invariant out[off..off + i] == src[..i]
    {
      out[off + i] := src[i];
    }
    assert out[..off + |src|] == out[..off] + out[off..off + |src|];
  }

  // ---------------------------------------------------------------- packets

  const PACKET_HEADER_SIZE := 1 + 1 + 1 + 1 + 32 + 32 + 16 + 16 + 8

  datatype Packet = Packet(version: Byte, kind: Byte, ttl: Byte, flags: Byte, src: Raw, dst: Raw,
                           packetId: Id16, streamId: Id16, seqNo: Uint64, payload: Bytes)

  function PacketHeader(p: Packet): (b: Bytes)
    ensures |b| == PACKET_HEADER_SIZE
  {
    [PROTOCOL_VERSION, p.kind, p.ttl, p.flags] + p.src + p.dst + p.packetId + p.streamId + PutUint64(p.seqNo)
  }

  /** Version 0 means the current one; any other version cannot be written. */
  function PacketBytes(p: Packet): Result<Bytes> {
    if p.version != 0 && p.version != PROTOCOL_VERSION then Err else Ok(PacketHeader(p) + p.payload)
  }

  method MarshalPacket(p: Packet) returns (r: Result<Bytes>)
    ensures r == PacketBytes(p)
  {
    var version := if p.version == 0 then PROTOCOL_VERSION else p.version;
    if version != PROTOCOL_VERSION {
      return Err;
    }
    var out := new Byte[PACKET_HEADER_SIZE + |p.payload|];
    out[0], out[1], out[2], out[3] := version, p.kind, p.ttl, p.flags;
    assert out[..4] == [PROTOCOL_VERSION, p.kind, p.ttl, p.flags];
    CopyTo(out, 4, p.src);
    CopyTo(out, 36, p.dst);
    CopyTo(out, 68, p.packetId);
    CopyTo(out, 84, p.streamId);
    CopyTo(out, 100, PutUint64(p.seqNo));
    assert out[..108] == PacketHeader(p);
    CopyTo(out, 108, p.payload);
    assert out[..] == out[..108 + |p.payload|];
    return Ok(out[..]);
  }

  function ParsePacket(data: Bytes): Result<Packet> {
    if |data| < PACKET_HEADER_SIZE || data[0] != PROTOCOL_VERSION then Err
    else Ok(Packet(data[0], data[1], data[2], data[3], data[4..36], data[36..68], data[68..84], data[84..100],
                   GetUint64(data[100..108]), data[108..]))
  }

  /** Parsing what was written gives the packet back, with version 0 read as 1. */
  lemma PacketRoundTrip(p: Packet)
    requires PacketBytes(p).Ok?
    ensures ParsePacket(PacketBytes(p).value) == Ok(p.(version := PROTOCOL_VERSION))
  {
    var data := PacketBytes(p).value;
    var h := [PROTOCOL_VERSION, p.kind, p.ttl, p.flags];
    assert data[4..36] == p.src && data[36..68] == p.dst;
    assert data[68..84] == p.packetId && data[84..100] == p.streamId;
    assert data[100..108] == PutUint64(p.seqNo);
    assert data[108..] == p.payload;
  }

  /** Whatever is accepted is written back byte for byte. */
  lemma PacketReencodes(data: Bytes)
    requires ParsePacket(data).Ok?
    ensures PacketBytes(ParsePacket(data).value) == Ok(data)
  {
    var p := ParsePacket(data).value;
    assert data == [data[0], data[1], data[2], data[3]] + data[4..36] + data[36..68] + data[68..84] + data[84..100]
                   + data[100..108] + data[108..];
  }

  /** Where the fields of a packet are. */
  lemma PacketLayout(p: Packet)
    requires PacketBytes(p).Ok?
    ensures var b := PacketBytes(p).value;
            && |b| == 108 + |p.payload|
            && (b[0], b[1], b[2], b[3]) == (1, p.kind, p.ttl, p.flags)
            && b[4..36] == p.src && b[36..68] == p.dst && b[68..84] == p.packetId && b[84..100] == p.streamId
            && Value(b[100..108]) == p.seqNo && b[108..] == p.payload
  {
    PacketRoundTrip(p);
    assert PacketBytes(p).value[100..108] == PutUint64(p.seqNo);
  }

  // ---------------------------------------------------------------- circuit cells

  datatype CircuitCell = CircuitCell(version: Byte, kind: Byte, circuitId: Uint64, payload: Bytes)

  function CellBytes(c: CircuitCell): Result<Bytes> {
    if c.version != 0 && c.version != PROTOCOL_VERSION then Err
    else Ok([PROTOCOL_VERSION, c.kind] + PutUint64(c.circuitId) + c.payload)
  }

  method MarshalCell(c: CircuitCell) returns (r: Result<Bytes>)
    ensures r == CellBytes(c)
  {
    var version := if c.version == 0 then PROTOCOL_VERSION else c.version;
    if version != PROTOCOL_VERSION {
      return Err;
    }
    var out := new Byte[10 + |c.payload|];
    out[0] := version;
    out[1] := c.kind;
    assert out[..2] == [PROTOCOL_VERSION, c.kind];
    CopyTo(out, 2, PutUint64(c.circuitId));
    CopyTo(out, 10, c.payload);
    assert out[..] == out[..10 + |c.payload|];
    return Ok(out[..]);
  }

  function ParseCell(b: Bytes): Result<CircuitCell> {
    if |b| < 10 then Err
    else
      var c := CircuitCell(b[0], b[1], GetUint64(b[2..10]), b[10..]);
      if c.version != PROTOCOL_VERSION then Err else Ok(c)
  }

  lemma CellRoundTrip(c: CircuitCell)
    requires CellBytes(c).Ok?
    ensures ParseCell(CellBytes(c).value) == Ok(c.(version := PROTOCOL_VERSION))
  {
    var b := CellBytes(c).value;
    assert b[2..10] == PutUint64(c.circuitId) && b[10..] == c.payload;
  }

  lemma CellReencodes(b: Bytes)
    requires ParseCell(b).Ok?
    ensures CellBytes(ParseCell(b).value) == Ok(b)
  {
    assert b == [b[0], b[1]] + b[2..10] + b[10..];
  }

  /** Where the fields of a cell are, and those of a relay payload. */
  lemma CellLayout(c: CircuitCell, cmd: Byte, body: Bytes)
    requires CellBytes(c).Ok?
    ensures var b := CellBytes(c).value;
            && |b| == 10 + |c.payload| && b[0] == 1 && b[1] == c.kind
            && Value(b[2..10]) == c.circuitId && b[10..] == c.payload
    ensures RelayPayload(cmd, body)[0] == cmd && RelayPayload(cmd, body)[1..] == body
  {
    assert CellBytes(c).value[2..10] == PutUint64(c.circuitId);
  }

  /** The command byte in front of a relay body. */
  function RelayPayload(cmd: Byte, body: Bytes): Bytes { [cmd] + body }

  function ParseRelayPayload(b: Bytes): Result<(Byte, Bytes)> {
    if |b| < 1 then Err else Ok((b[0], b[1..]))
  }

  lemma RelayRoundTrip(cmd: Byte, body: Bytes, b: Bytes)
    ensures ParseRelayPayload(RelayPayload(cmd, body)) == Ok((cmd, body))
    ensures ParseRelayPayload(b).Ok? ==> RelayPayload(ParseRelayPayload(b).value.0, ParseRelayPayload(b).value.1) == b
  {
    assert RelayPayload(cmd, body)[1..] == body;
    if |b| >= 1 {
      assert b == [b[0]] + b[1..];
    }
  }
}
