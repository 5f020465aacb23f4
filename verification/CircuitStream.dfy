/** A byte stream through an onion circuit: writes become data commands, and reads hand out the
    bodies of the data commands that come back. */
module CircuitStream {
  import opened NodeId
  import opened Onion
  import opened Circuit
  import opened CircuitSafety
  import opened CircuitEndpoints
  import Wire

  const MAX_WRITE := 24 * 1024

  type Text = seq<Byte>

  /** The bytes that the data commands among `cmds` carry. */
  function Payloads(cmds: seq<Command>): Text {
    if cmds == [] then [] else (if cmds[0].Data? then cmds[0].bytes else []) + Payloads(cmds[1..])
  }

  /** The commands one write sends. */
  function WriteCommands(p: Text): (cmds: seq<Command>)
    ensures Payloads(cmds) == p
    ensures forall c :: c in cmds ==> c.Data? && 1 <= |c.bytes| <= MAX_WRITE
  {
    if p == [] then []
    else
      var n := Wire.Portion(MAX_WRITE, p);
      var cmds := [Data(p[..n])] + WriteCommands(p[n..]);
      assert cmds[1..] == WriteCommands(p[n..]);
      cmds
  }

  lemma WriteStep(p: Text, total: nat, done: seq<Command>)
    requires total < |p| && WriteCommands(p) == done + WriteCommands(p[total..])
    ensures var n := Wire.Portion(MAX_WRITE, p[total..]);
            WriteCommands(p) == done + [Data(p[total..][..n])] + WriteCommands(p[total + n..])
  {
    var left := p[total..];
    var n := Wire.Portion(MAX_WRITE, left);
    assert left[n..] == p[total + n..];
    Wire.AppendAssociates(done, [Data(left[..n])], WriteCommands(left[n..]));
  }

  /** The layers of `cmds`, sent one after the other, and the hops after that. */
  function WrapAll(hops: seq<Hop>, cmds: seq<Command>): seq<Layer>
    decreases |cmds|
  {
    if cmds == [] then [] else [Wrap(hops, 0, cmds[0])] + WrapAll(AfterSend(hops), cmds[1..])
  }

  function AfterAll(hops: seq<Hop>, n: nat): seq<Hop>
    decreases n
  {
    if n == 0 then hops else AfterAll(AfterSend(hops), n - 1)
  }

  lemma {:induction false} WrapAllAppend(hops: seq<Hop>, cmds: seq<Command>, c: Command)
    ensures WrapAll(hops, cmds + [c]) == WrapAll(hops, cmds) + [Wrap(AfterAll(hops, |cmds|), 0, c)]
    ensures AfterAll(hops, |cmds| + 1) == AfterSend(AfterAll(hops, |cmds|))
    ensures |AfterAll(hops, |cmds|)| == |hops|
    decreases |cmds|
  {
    if cmds == [] {
      assert AfterAll(hops, 1) == AfterAll(AfterSend(hops), 0);
      assert [c][1..] == [] && WrapAll(hops, [c]) == [Wrap(hops, 0, c)] + WrapAll(AfterSend(hops), []);
    } else {
      assert (cmds + [c])[1..] == cmds[1..] + [c];
      WrapAllAppend(AfterSend(hops), cmds[1..], c);
    }
  }

  /** Every command sent moves every hop's counter on by one, and each is wrapped under the counters
      that the ones before it have left. */
  lemma {:induction false} CellsAreNumbered(hops: seq<Hop>, cmds: seq<Command>, i: nat)
    requires i < |cmds|
    ensures |WrapAll(hops, cmds)| == |cmds| && |AfterAll(hops, i)| == |hops|
    ensures WrapAll(hops, cmds)[i] == Wrap(AfterAll(hops, i), 0, cmds[i])
    ensures forall j :: 0 <= j < |hops| ==> AfterAll(hops, i)[j] == hops[j].(sendSeq := hops[j].sendSeq + i)
    decreases |cmds|
  {
    var rest := AfterSend(hops);
    if i == 0 {
      if |cmds| > 1 {
        CellsAreNumbered(rest, cmds[1..], 0);
      }
    } else {
      CellsAreNumbered(rest, cmds[1..], i - 1);
    }
  }

  /** How many commands get out: none without a hop, and no more than the connection takes. */
  function Handed(hops: seq<Hop>, cmds: seq<Command>, room: nat): (k: nat)
    ensures k <= |cmds| && k <= room && (hops == [] ==> k == 0) && (hops != [] ==> k == |cmds| || k == room)
  {
    if hops == [] then 0 else if |cmds| <= room then |cmds| else room
  }

  lemma {:induction false} PayloadsAppend(a: seq<Command>, b: seq<Command>)
    ensures Payloads(a + b) == Payloads(a) + Payloads(b)
  {
    if a == [] {
      assert a + b == b;
    } else {
      assert (a + b)[1..] == a[1..] + b;
      PayloadsAppend(a[1..], b);
    }
  }

  // ---------------------------------------------------------------- the client's connection

  /** What waits in the channel of responses. */
  datatype Response = Reply(cmd: Command) | Broken

  datatype ReadResult = Got(bytes: Text) | EndOfStream | TimedOut | Failed

  /** Why a read stops waiting. */
  datatype Interruption = CircuitDone | DeadlinePassed

  function Interrupted(why: Interruption): ReadResult { if why.CircuitDone? then EndOfStream else TimedOut }

  /** The effect of one read: result, buffer and remaining responses. The wait for a response may
      be interrupted after any number of them; a deadline that passed before the call is patience 0. */
  function ReadOnce(buf: Text, closed: bool, size: nat, responses: seq<Response>, patience: nat, why: Interruption): (ReadResult, Text, seq<Response>)
    decreases |responses|
  {
    if buf != [] then (Got(buf[..Wire.Portion(size, buf)]), buf[Wire.Portion(size, buf)..], responses)
    else if closed then (Failed, buf, responses)
    else if responses == [] || patience == 0 then (Interrupted(why), buf, responses)
    else
      match responses[0]
      case Broken => (Failed, buf, responses[1..])
      case Reply(Data(b)) => (Got(b[..Wire.Portion(size, b)]), b[Wire.Portion(size, b)..], responses[1..])
      case Reply(Close) => (EndOfStream, buf, responses[1..])
      case Reply(OpenError(_)) => (Failed, buf, responses[1..])
      case _ => ReadOnce(buf, closed, size, responses[1..], patience - 1, why)
  }

  /** Part of the way through a write: `done` are the commands whose cells are out. */
  ghost predicate Written(p: Text, before: seq<Hop>, total: nat, done: seq<Command>, cells: seq<Layer>, hops: seq<Hop>) {
    && total <= |p| && p[..total] == Payloads(done)
    && WriteCommands(p) == done + WriteCommands(p[total..])
    && cells == WrapAll(before, done) && |cells| == |done|
    && hops == AfterAll(before, |done|) && |hops| == |before|
  }

  /** A write has sent the first commands, as many as got out, and its total says how many bytes. */
  ghost predicate Wrote(p: Text, room: nat, before: seq<Hop>, total: nat, failed: bool, cells: seq<Layer>, hops: seq<Hop>) {
    var cmds := WriteCommands(p);
    var k := Handed(before, cmds, room);
    && (failed <==> k < |cmds|)
    && cells == WrapAll(before, cmds[..k])
    && total <= |p| && p[..total] == Payloads(cmds[..k])
    && hops == AfterAll(before, if failed then k + 1 else k)
  }

  lemma WrittenStep(p: Text, before: seq<Hop>, total: nat, done: seq<Command>, cells: seq<Layer>, hops: seq<Hop>)
    requires Written(p, before, total, done, cells, hops) && total < |p|
    ensures var n := Wire.Portion(MAX_WRITE, p[total..]);
            var cmd := Data(p[total..][..n]);
            Written(p, before, total + n, done + [cmd], cells + [Wrap(hops, 0, cmd)], AfterSend(hops))
  {
    var n := Wire.Portion(MAX_WRITE, p[total..]);
    var cmd := Data(p[total..][..n]);
    WrapAllAppend(before, done, cmd);
    WriteStep(p, total, done);
    OneMorePayload(p, total, done, n);
  }

  lemma OneMorePayload(p: Text, total: nat, done: seq<Command>, n: nat)
    requires total + n <= |p| && p[..total] == Payloads(done)
    ensures p[..total + n] == Payloads(done + [Data(p[total..][..n])])
  {
    PayloadsAppend(done, [Data(p[total..][..n])]);
    assert p[..total + n] == p[..total] + p[total..][..n];
  }

  /** The connection fails, or there is no hop: the next command has used its numbers for nothing. */
  lemma WroteSome(p: Text, room: nat, before: seq<Hop>, total: nat, done: seq<Command>, cells: seq<Layer>, hops: seq<Hop>)
    requires Written(p, before, total, done, cells, hops) && total < |p|
    requires if before == [] then done == [] else |done| == room
    ensures Wrote(p, room, before, total, true, cells, AfterSend(hops))
  {
    WrapAllAppend(before, done, Close);
    assert WriteCommands(p)[..|done|] == done;
  }

  lemma WroteAll(p: Text, room: nat, before: seq<Hop>, total: nat, done: seq<Command>, cells: seq<Layer>, hops: seq<Hop>)
    requires Written(p, before, total, done, cells, hops) && total == |p|
    requires if before == [] then done == [] else |done| <= room
    ensures Wrote(p, room, before, total, false, cells, hops)
  {
    assert p[total..] == [] && done + [] == done;
    assert WriteCommands(p)[..|done|] == done;
  }

  class CircuitConn {
    const circuit: ClientCircuit
    var buf: Text
    var closed: bool

    constructor (circuit: ClientCircuit)
      ensures this.circuit == circuit && buf == [] && !closed
    {
      this.circuit := circuit;
      buf, closed := [], false;
    }

    /** Send `p` in commands of at most `MAX_WRITE` bytes. `overdue` says that the deadline has passed
        before, and the connection to the first relay takes only `room` more cells. `total` counts
        the bytes of the commands that were handed over; one that fails has used up its numbers. */
    method Write(p: Text, overdue: bool, room: nat) returns (total: nat, failed: bool, cells: seq<Layer>)
      modifies circuit`hops
      ensures closed || overdue ==> failed && total == 0 && cells == [] && circuit.hops == old(circuit.hops)
      ensures !closed && !overdue ==> Wrote(p, room, old(circuit.hops), total, failed, cells, circuit.hops)
    {
      total, failed, cells := 0, closed || overdue, [];
      if failed {
        return;
      }
      ghost var before, done: seq<Command> := circuit.hops, [];
      while total < |p|
        invariant Written(p, before, total, done, cells, circuit.hops)
        invariant |done| <= room && (before == [] ==> done == [])
      {
        var n := Wire.Portion(MAX_WRITE, p[total..]);
        var cmd := Data(p[total..][..n]);
        WrittenStep(p, before, total, done, cells, circuit.hops);
        ghost var hops := circuit.hops;
        var cell := circuit.SendRelay(cmd);
        if |cells| >= room || cell.None? {
          WroteSome(p, room, before, total, done, cells, hops);
          return total, true, cells;
        }
        cells := cells + [cell.value];
        done := done + [cmd];
        total := total + n;
      }
      WroteAll(p, room, before, total, done, cells, circuit.hops);
    }

    method Read(size: nat, responses: seq<Response>, patience: nat, why: Interruption) returns (r: ReadResult, rest: seq<Response>)
      modifies this`buf
      ensures (r, buf, rest) == ReadOnce(old(buf), closed, size, responses, patience, why)
    {
      if |buf| > 0 {
        var n := Wire.Portion(size, buf);
        r := Got(buf[..n]);
        buf := buf[n..];
        return r, responses;
      }
      if closed {
        return Failed, responses;
      }
      var i := 0;
      while i < |responses| && i < patience
        invariant i <= |responses| && i <= patience && buf == []
        invariant ReadOnce([], false, size, responses, patience, why)
               == ReadOnce([], false, size, responses[i..], patience - i, why)
      {
        var response := responses[i];
        assert responses[i..][0] == response && responses[i..][1..] == responses[i + 1..];
        i := i + 1;
        match response {
          case Broken => return Failed, responses[i..];
          case Reply(cmd) =>
            match cmd {
              case Data(body) =>
                var n := Wire.Portion(size, body);
                buf := body[n..];
                return Got(body[..n]), responses[i..];
              case Close => return EndOfStream, responses[i..];
              case OpenError(_) => return Failed, responses[i..];
              case _ =>
            }
        }
      }
      return Interrupted(why), responses[i..];
    }
  }

  // ---------------------------------------------------------------- runs of reads

  datatype ReadOp = ReadOp(size: nat, patience: nat, why: Interruption)

  datatype Reader = Reader(out: Text, buf: Text, waiting: seq<Response>)

  function ReadNext(s: Reader, op: ReadOp): Reader {
    var (r, buf, rest) := ReadOnce(s.buf, false, op.size, s.waiting, op.patience, op.why);
    Reader(s.out + (if r.Got? then r.bytes else []), buf, rest)
  }

  function ReadAll(s: Reader, ops: seq<ReadOp>): Reader
    decreases |ops|
  {
    if ops == [] then s else ReadAll(ReadNext(s, ops[0]), ops[1..])
  }

  /** The bytes in a list of responses. */
  function Carried(rs: seq<Response>): Text {
    if rs == [] then [] else (if rs[0].Reply? && rs[0].cmd.Data? then rs[0].cmd.bytes else []) + Carried(rs[1..])
  }

  function Result(s: Reader): Text { s.out + (s.buf + Carried(s.waiting)) }

  /** One read moves bytes from the responses over the buffer to the caller, and none is lost. */
  lemma {:induction false} ReadOnceConserves(buf: Text, size: nat, responses: seq<Response>, patience: nat, why: Interruption)
    ensures var (r, next, rest) := ReadOnce(buf, false, size, responses, patience, why);
            (if r.Got? then r.bytes else []) + (next + Carried(rest)) == buf + Carried(responses)
    decreases |responses|
  {
    if buf != [] {
      var n := Wire.Portion(size, buf);
      assert buf[..n] + (buf[n..] + Carried(responses)) == buf + Carried(responses);
    } else if responses != [] && patience != 0 {
      var first := responses[0];
      if first.Reply? && first.cmd.Data? {
        var b := first.cmd.bytes;
        var n := Wire.Portion(size, b);
        assert b[..n] + (b[n..] + Carried(responses[1..])) == b + Carried(responses[1..]);
      } else if first.Reply? && !first.cmd.Close? && !first.cmd.OpenError? {
        ReadOnceConserves(buf, size, responses[1..], patience - 1, why);
      }
    }
  }

  /** Commands that a read passes over: nothing a connection is waiting for. */
  predicate Ignored(r: Response) { r.Reply? && (r.cmd.Extend? || r.cmd.Extended? || r.cmd.Open? || r.cmd.OpenOK?) }

  /** What a read that has nothing buffered comes back with: the first bytes of the first data command,
      the rest of which it keeps; the end of the stream for a close; an error for a refusal or a
      broken circuit. Everything passed over is gone. */
  lemma {:induction false} ReadTakesFirstThatMatters(skipped: seq<Response>, r: Response, rest: seq<Response>, size: nat, patience: nat, why: Interruption)
    requires (forall x :: x in skipped ==> Ignored(x)) && !Ignored(r) && |skipped| < patience
    ensures var (got, kept, left) := ReadOnce([], false, size, skipped + [r] + rest, patience, why);
            && left == rest
            && match r
               case Broken => got == Failed && kept == []
               case Reply(Data(b)) =>
                 got.Got? && got.bytes + kept == b && |got.bytes| == (if size < |b| then size else |b|)
               case Reply(cmd) => got == (if cmd.Close? then EndOfStream else Failed) && kept == []
    decreases |skipped|
  {
    var all := skipped + [r] + rest;
    if skipped == [] {
      assert all[0] == r && all[1..] == rest;
    } else {
      assert skipped[0] in skipped;
      assert all[0] == skipped[0] && all[1..] == skipped[1..] + [r] + rest;
      ReadTakesFirstThatMatters(skipped[1..], r, rest, size, patience - 1, why);
    }
  }

  /** A read that waits in vain reports the end of the stream if the circuit is done and a timeout if
      its deadline has passed. */
  lemma {:induction false} ReadInVain(skipped: seq<Response>, rest: seq<Response>, size: nat, why: Interruption)
    requires forall x :: x in skipped ==> Ignored(x)
    ensures ReadOnce([], false, size, skipped + rest, |skipped|, why)
         == (match why case CircuitDone => EndOfStream case DeadlinePassed => TimedOut, [], rest)
    decreases |skipped|
  {
    if skipped == [] {
      assert skipped + rest == rest;
    } else {
      assert skipped[0] in skipped;
      assert (skipped + rest)[0] == skipped[0] && (skipped + rest)[1..] == skipped[1..] + rest;
      ReadInVain(skipped[1..], rest, size, why);
    }
  }

  /** Buffered bytes come first, and a closed connection gives nothing else. */
  lemma BufferComesFirst(buf: Text, closed: bool, size: nat, responses: seq<Response>, patience: nat, why: Interruption)
    ensures var (got, kept, left) := ReadOnce(buf, closed, size, responses, patience, why);
            && (buf != [] ==> got.Got? && got.bytes + kept == buf && left == responses
                              && |got.bytes| == (if size < |buf| then size else |buf|))
            && (buf == [] && closed ==> got == Failed && left == responses)
  {
  }

  lemma {:induction false} ReadsConserve(s: Reader, ops: seq<ReadOp>)
    ensures Result(ReadAll(s, ops)) == Result(s)
    decreases |ops|
  {
    if ops != [] {
      var op := ops[0];
      var (r, buf, rest) := ReadOnce(s.buf, false, op.size, s.waiting, op.patience, op.why);
      ReadOnceConserves(s.buf, op.size, s.waiting, op.patience, op.why);
      var got := if r.Got? then r.bytes else [];
      Wire.AppendAssociates(s.out, got, buf + Carried(rest));
      ReadsConserve(ReadNext(s, op), ops[1..]);
    }
  }

  // ---------------------------------------------------------------- end to end

  function Replies(cmds: seq<Command>): seq<Response> { seq(|cmds|, i requires 0 <= i < |cmds| => Reply(cmds[i])) }

  lemma {:induction false} CarriedReplies(cmds: seq<Command>)
    ensures Carried(Replies(cmds)) == Payloads(cmds)
  {
    if cmds != [] {
      assert Replies(cmds)[1..] == Replies(cmds[1..]);
      CarriedReplies(cmds[1..]);
    }
  }

  /** Once a service is opened, what the last relay writes to it: the data up to a close. */
  function ToService(cmds: seq<Command>, open: bool): Text
    decreases |cmds|
  {
    if cmds == [] || cmds[0].Close? then []
    else (if open && cmds[0].Data? then cmds[0].bytes else []) + ToService(cmds[1..], open || cmds[0].Open?)
  }

  ghost predicate WithoutClose(cmds: seq<Command>) { forall c :: c in cmds ==> !c.Close? }

  /** Data that comes before the service is opened goes nowhere. */
  lemma {:induction false} NothingBeforeOpen(before: seq<Command>, rest: seq<Command>)
    requires WithoutClose(before) && forall c :: c in before ==> !c.Open?
    ensures ToService(before + rest, false) == ToService(rest, false)
    decreases |before|
  {
    if before == [] {
      assert before + rest == rest;
    } else {
      assert before[0] in before && (before + rest)[1..] == before[1..] + rest;
      NothingBeforeOpen(before[1..], rest);
    }
  }

  lemma {:induction false} AllWhileOpen(body: seq<Command>, rest: seq<Command>)
    requires WithoutClose(body)
    ensures ToService(body + rest, true) == Payloads(body) + ToService(rest, true)
    decreases |body|
  {
    if body == [] {
      assert body + rest == rest;
    } else {
      assert body[0] in body && (body + rest)[0] == body[0] && (body + rest)[1..] == body[1..] + rest;
      AllWhileOpen(body[1..], rest);
      var first := if body[0].Data? then body[0].bytes else [];
      Wire.AppendAssociates(first, Payloads(body[1..]), ToService(rest, true));
    }
  }

  /** The service gets exactly the data between its opening and the close. */
  lemma ServiceGetsWhatIsBetween(before: seq<Command>, service: seq<Byte>, body: seq<Command>, after: seq<Command>)
    requires WithoutClose(before) && (forall c :: c in before ==> !c.Open?) && WithoutClose(body)
    ensures ToService(before + ([Open(service)] + body), false) == Payloads(body)
    ensures ToService(before + ([Open(service)] + (body + ([Close] + after))), false) == Payloads(body)
  {
    NothingBeforeOpen(before, [Open(service)] + body);
    assert ([Open(service)] + body)[1..] == body && body + [] == body;
    AllWhileOpen(body, []);
    assert Payloads(body) + [] == Payloads(body);
    var end := [Close] + after;
    NothingBeforeOpen(before, [Open(service)] + (body + end));
    assert ([Open(service)] + (body + end))[1..] == body + end;
    AllWhileOpen(body, end);
    assert ToService(end, true) == [];
  }

  lemma {:induction false} ToServicePrefix(cmds: seq<Command>, n: nat, open: bool)
    requires n <= |cmds|
    ensures ToService(cmds[..n], open) <= ToService(cmds, open)
    decreases |cmds|
  {
    if n > 0 && !cmds[0].Close? {
      assert cmds[..n][1..] == cmds[1..][..n - 1];
      ToServicePrefix(cmds[1..], n - 1, open || cmds[0].Open?);
    }
  }

  lemma {:induction false} PayloadsPrefix(cmds: seq<Command>, n: nat)
    requires n <= |cmds|
    ensures Payloads(cmds[..n]) <= Payloads(cmds)
  {
    assert cmds == cmds[..n] + cmds[n..];
    PayloadsAppend(cmds[..n], cmds[n..]);
  }

  /** In every state an honest circuit can reach, the service behind the last relay has been given
      a prefix of what the client sent it. */
  lemma ServiceGetsPrefix(s: System)
    requires ReachableState(s) && WellShaped(s) && |s.client.hops| > 0
    ensures var z := |s.client.hops| - 1;
            && z < |s.joins| && s.joins[z].sentBefore <= |s.client.sent| && s.relays[z].On?
            && ToService(s.relays[z].received, false) <= ToService(s.client.sent[s.joins[z].sentBefore..], false)
  {
    CommandsArriveInOrder(s);
    var z := |s.client.hops| - 1;
    var since := s.client.sent[s.joins[z].sentBefore..];
    var n := |since| - Waiting(s.fwd, z);
    assert s.relays[z].received == since[..n];
    ToServicePrefix(since, n, false);
  }

  lemma ReadsArePrefix(cmds: seq<Command>, ops: seq<ReadOp>)
    ensures ReadAll(Reader([], [], Replies(cmds)), ops).out <= Payloads(cmds)
  {
    var start := Reader([], [], Replies(cmds));
    CarriedReplies(cmds);
    ReadsConserve(start, ops);
    assert Result(start) == Payloads(cmds);
  }

  /** And however the client reads, into buffers of whatever sizes, it has read a prefix of what the
      circuit returned. */
  lemma ClientReadsPrefix(s: System, ops: seq<ReadOp>)
    requires ReachableState(s) && WellShaped(s) && |s.client.hops| > 0
    ensures ReadAll(Reader([], [], Replies(s.client.got)), ops).out <= Payloads(s.returned)
  {
    CommandsArriveInOrder(s);
    ReadsArePrefix(s.client.got, ops);
    PayloadsPrefix(s.returned, |s.returned| - Waiting(s.rev, |s.client.hops| - 1));
  }
}
