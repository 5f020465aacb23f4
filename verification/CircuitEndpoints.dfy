/** The two ends of a circuit hop as the program keeps them: counters and flags updated in place. */
module CircuitEndpoints {
  import opened Common
  import opened NodeId
  import opened Onion

  class ClientCircuit {
    var hops: seq<Hop>
    var closed: bool

    constructor ()
      ensures hops == [] && !closed
    {
      hops, closed := [], false;
    }

    /** Wrap a command for all hops, the last one innermost. */
    method SendRelay(cmd: Command) returns (cell: Option<Layer>)
      modifies this`hops
      ensures old(hops) == [] ==> cell == None && hops == []
      ensures old(hops) != [] ==> cell == Some(Wrap(old(hops), 0, cmd)) && hops == AfterSend(old(hops))
    {
      if |hops| == 0 {
        return None;
      }
      var payload := Plain(cmd);
      ghost var before := hops;
      var i := |hops|;
      while i > 0
        invariant 0 <= i <= |before| == |hops|
        invariant payload == Wrap(before, i, cmd)
        invariant forall j :: 0 <= j < i ==> hops[j] == before[j]
        invariant forall j :: i <= j < |hops| ==> hops[j] == before[j].(sendSeq := before[j].sendSeq + 1)
      {
        i := i - 1;
        payload := Sealed(hops[i].fwdKey, hops[i].sendSeq, payload);
        hops := hops[i := hops[i].(sendSeq := hops[i].sendSeq + 1)];
      }
      assert hops == AfterSend(before);
      return Some(payload);
    }

    /** Open one layer per hop, the first one outermost; the first failure closes the circuit. */
    method HandleReverse(layer: Layer) returns (r: Option<Command>)
      modifies this
      ensures match Unwrap(old(hops), 0, layer)
              case Some(inner) =>
                && hops == AfterReceive(old(hops)) && closed == old(closed)
                && r == (if inner.Plain? then Some(inner.cmd) else None)
              case None => closed && r == None
    {
      var payload := layer;
      ghost var before := hops;
      var i := 0;
      while i < |hops|
        invariant 0 <= i <= |before| == |hops|
        invariant Unwrap(before, 0, layer) == Unwrap(before, i, payload)
        invariant forall j :: i <= j < |hops| ==> hops[j] == before[j]
        invariant forall j :: 0 <= j < i ==> hops[j] == before[j].(recvSeq := before[j].recvSeq + 1)
        invariant closed == old(closed)
      {
        var attempt := OpenLayer(hops[i].revKey, hops[i].recvSeq, payload);
        if attempt.None? {
          closed := true;
          return None;
        }
        hops := hops[i := hops[i].(recvSeq := hops[i].recvSeq + 1)];
        payload := attempt.value;
        i := i + 1;
      }
      assert hops == AfterReceive(before);
      return if payload.Plain? then Some(payload.cmd) else None;
    }

    method AddHop(keys: HopKeys)
      modifies this`hops
      ensures hops == old(hops) + [Hop(keys.fwd, keys.rev, 0, 0)]
    {
      hops := hops + [Hop(keys.fwd, keys.rev, 0, 0)];
    }
  }

  /** What a relay does with a cell from the client's side. */
  datatype Action = PassOn(layer: Layer) | Act(cmd: Command) | Destroy | Ignore

  class RelayCircuit {
    const fwdKey: Key
    const revKey: Key
    var fwdSeq: nat
    var revSeq: nat
    var outgoing: bool
    var closed: bool

    constructor (keys: HopKeys)
      ensures fwdKey == keys.fwd && revKey == keys.rev && fwdSeq == revSeq == 0 && !outgoing && !closed
    {
      fwdKey, revKey := keys.fwd, keys.rev;
      fwdSeq, revSeq, outgoing, closed := 0, 0, false, false;
    }

    method HandleForward(layer: Layer) returns (a: Action)
      modifies this`fwdSeq, this`closed
      ensures old(closed) ==> a == Ignore && fwdSeq == old(fwdSeq) && closed
      ensures !old(closed) ==>
                match OpenLayer(fwdKey, old(fwdSeq), layer)
                case None => a == Destroy && closed && fwdSeq == old(fwdSeq)
                case Some(inner) =>
                  && fwdSeq == old(fwdSeq) + 1
                  && (outgoing ==> a == PassOn(inner) && !closed)
                  && (!outgoing && inner.Plain? ==> a == Act(inner.cmd) && (closed <==> inner.cmd.Close?))
                  && (!outgoing && inner.Sealed? ==> a == Destroy && closed)
    {
      if closed {
        return Ignore;
      }
      var attempt := OpenLayer(fwdKey, fwdSeq, layer);
      if attempt.None? {
        closed := true;
        return Destroy;
      }
      fwdSeq := fwdSeq + 1;
      if outgoing {
        return PassOn(attempt.value);
      }
      if attempt.value.Sealed? {
        closed := true;
        return Destroy;
      }
      if attempt.value.cmd.Close? {
        closed := true;
      }
      return Act(attempt.value.cmd);
    }

    /** Add this relay's layer to whatever goes back to the client, under the next number. */
    method WrapReverse(inner: Layer) returns (r: Option<Layer>)
      modifies this`revSeq
      ensures old(closed) ==> r == None && revSeq == old(revSeq)
      ensures !old(closed) ==> r == Some(Sealed(revKey, old(revSeq), inner)) && revSeq == old(revSeq) + 1
    {
      if closed {
        return None;
      }
      var seqNo := revSeq;
      revSeq := revSeq + 1;
      return Some(Sealed(revKey, seqNo, inner));
    }

    method SetOutgoing()
      modifies this`outgoing
      ensures outgoing == (old(outgoing) || !closed)
    {
      if !closed {
        outgoing := true;
      }
    }
  }
}
