/** Keys, layers and cells of an onion circuit. Sealing is ideal: a layer opens under exactly the
    key and sequence number it was sealed with. The Diffie-Hellman secret of two ephemeral keys
    is the unordered pair of them, so both sides derive the same keys. */
module Onion {
  import opened Common
  import opened NodeId

  type Priv = nat
  type Nonce = nat

  /** The public half of an ephemeral key. */
  datatype Pub = Pub(priv: Priv)

  datatype Key = Key(shared: set<Priv>, clientNonce: Nonce, serverNonce: Nonce, forward: bool)

  datatype HopKeys = HopKeys(fwd: Key, rev: Key)

  function DeriveHop(own: Priv, peer: Pub, clientNonce: Nonce, serverNonce: Nonce): HopKeys {
    var shared := {own, peer.priv};
    HopKeys(Key(shared, clientNonce, serverNonce, true), Key(shared, clientNonce, serverNonce, false))
  }

  datatype Command =
    | Extend(next: Id, pub: Pub, nonce: Nonce)
    | Extended(pub: Pub, nonce: Nonce)
    | Open(service: seq<Byte>)
    | OpenOK
    | OpenError(reason: seq<Byte>)
    | Data(bytes: seq<Byte>)
    | Close

  datatype Layer =
    | Sealed(key: Key, seqNo: nat, inner: Layer)
    | Plain(cmd: Command)

  /** `openCircuitLayer`: the sequence number in front must be the expected one and the rest must
      authenticate under the key. */
  function OpenLayer(key: Key, want: nat, layer: Layer): Option<Layer> {
    if layer.Sealed? && layer.seqNo == want && layer.key == key then Some(layer.inner) else None
  }

  datatype Cell =
    | Create(pub: Pub, nonce: Nonce)
    | Created(pub: Pub, nonce: Nonce)
    | Relay(layer: Layer)

  // ---------------------------------------------------------------- the client's layers

  datatype Hop = Hop(fwdKey: Key, revKey: Key, sendSeq: nat, recvSeq: nat)

  /** A command wrapped for the hops from `i` on, the last hop innermost. */
  function Wrap(hops: seq<Hop>, i: nat, cmd: Command): Layer
    requires i <= |hops|
    decreases |hops| - i
  {
    if i == |hops| then Plain(cmd) else Sealed(hops[i].fwdKey, hops[i].sendSeq, Wrap(hops, i + 1, cmd))
  }

  function AfterSend(hops: seq<Hop>): (r: seq<Hop>)
    ensures |r| == |hops|
    ensures forall j :: 0 <= j < |r| ==> r[j] == hops[j].(sendSeq := hops[j].sendSeq + 1)
  {
    seq(|hops|, j requires 0 <= j < |hops| => hops[j].(sendSeq := hops[j].sendSeq + 1))
  }

  /** A reverse layer opened by the hops from `i` on, the first hop outermost. */
  function Unwrap(hops: seq<Hop>, i: nat, layer: Layer): Option<Layer>
    requires i <= |hops|
    decreases |hops| - i
  {
    if i == |hops| then Some(layer)
    else
      match OpenLayer(hops[i].revKey, hops[i].recvSeq, layer)
      case None => None
      case Some(inner) => Unwrap(hops, i + 1, inner)
  }

  function AfterReceive(hops: seq<Hop>): (r: seq<Hop>)
    ensures |r| == |hops|
    ensures forall j :: 0 <= j < |r| ==> r[j] == hops[j].(recvSeq := hops[j].recvSeq + 1)
  {
    seq(|hops|, j requires 0 <= j < |hops| => hops[j].(recvSeq := hops[j].recvSeq + 1))
  }

  /** The seals one wrapped command costs, hop by hop. */
  function WrapSeals(hops: seq<Hop>): (r: seq<(Key, nat)>)
    ensures |r| == |hops|
    ensures forall j :: 0 <= j < |r| ==> r[j] == (hops[j].fwdKey, hops[j].sendSeq)
  {
    seq(|hops|, j requires 0 <= j < |hops| => (hops[j].fwdKey, hops[j].sendSeq))
  }

  // ---------------------------------------------------------------- what keys and layers are worth

  /** Two derivations agree only on the same secret, the same nonces and the same direction. */
  lemma HopKeysAreApart(a: Priv, p: Pub, c: Nonce, s: Nonce, b: Priv, q: Pub, d: Nonce, t: Nonce)
    ensures DeriveHop(a, p, c, s).fwd == DeriveHop(b, q, d, t).fwd <==> {a, p.priv} == {b, q.priv} && c == d && s == t
    ensures DeriveHop(a, p, c, s).rev == DeriveHop(b, q, d, t).rev <==> {a, p.priv} == {b, q.priv} && c == d && s == t
    ensures DeriveHop(a, p, c, s).fwd != DeriveHop(b, q, d, t).rev
  {
  }

  /** What the relays from `i` on make of something sent back: the last relay wraps it first. */
  function WrapBack(hops: seq<Hop>, i: nat, inner: Layer): Layer
    requires i <= |hops|
    decreases |hops| - i
  {
    if i == |hops| then inner else Sealed(hops[i].revKey, hops[i].recvSeq, WrapBack(hops, i + 1, inner))
  }

  /** The client accepts exactly what all its relays have sealed under their keys and next numbers,
      in their order. */
  lemma {:induction false} UnwrapsOnlyWhatWasWrapped(hops: seq<Hop>, i: nat, layer: Layer, inner: Layer)
    requires i <= |hops|
    ensures Unwrap(hops, i, layer) == Some(inner) <==> layer == WrapBack(hops, i, inner)
    decreases |hops| - i
  {
    if i < |hops| && layer.Sealed? {
      UnwrapsOnlyWhatWasWrapped(hops, i + 1, layer.inner, inner);
    }
  }

  /** A relay passes on exactly what the client has wrapped for it, and takes off one layer. */
  lemma RelayOpensItsLayer(hops: seq<Hop>, i: nat, key: Key, want: nat, cmd: Command)
    requires i < |hops|
    ensures OpenLayer(key, want, Wrap(hops, i, cmd))
         == if key == hops[i].fwdKey && want == hops[i].sendSeq then Some(Wrap(hops, i + 1, cmd)) else None
  {
  }
}
