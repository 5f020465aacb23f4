/** Key derivation, nonces and associated data. The primitives themselves are parameters: a keyed
    hash, an authenticated cipher that opens what it sealed, and a key agreement that commutes. */
module Crypto {
  import opened Common
  import opened NodeId
  import opened Wire

  /** An authenticated cipher: key, nonce, text, associated data. */
  datatype Aead = Aead(seal: (Bytes, Bytes, Bytes, Bytes) -> Bytes,
                       open: (Bytes, Bytes, Bytes, Bytes) -> Option<Bytes>)

  const TAG_SIZE := 16

  /** Section 2 of RFC 5116: decryption inverts encryption; the tag makes the text longer. */
  ghost predicate Correct(a: Aead) {
    forall k, n, p, d ::
      && |a.seal(k, n, p, d)| == |p| + TAG_SIZE
      && a.open(k, n, a.seal(k, n, p, d), d) == Some(p)
  }

  type Digest = s: Bytes | |s| == 32 witness seq(32, _ => 0)

  /** Four bytes fixed by the key, then the sequence number. `hash` is the digest of key and label. */
  function MakeNonce(hash: Bytes -> Digest, key: Bytes, seqNo: Uint64): (n: Bytes)
    ensures |n| == 12
  {
    hash(key)[..4] + PutUint64(seqNo)
  }

  /** Under one key, different sequence numbers never share a nonce. */
  lemma NoncesDiffer(hash: Bytes -> Digest, key: Bytes, i: Uint64, j: Uint64)
    requires MakeNonce(hash, key, i) == MakeNonce(hash, key, j)
    ensures i == j
  {
    assert MakeNonce(hash, key, i)[4..] == PutUint64(i);
    assert MakeNonce(hash, key, j)[4..] == PutUint64(j);
  }

  /** Where the digest and the number are. */
  lemma NonceLayout(hash: Bytes -> Digest, key: Bytes, seqNo: Uint64)
    ensures var n := MakeNonce(hash, key, seqNo);
            n[..4] == hash(key)[..4] && n[4..] == PutUint64(seqNo) && Value(n[4..]) == seqNo
  {
    assert MakeNonce(hash, key, seqNo)[4..] == PutUint64(seqNo);
  }

  function StreamAad(streamId: Id16, src: Raw, dst: Raw, seqNo: Uint64): Bytes {
    streamId + src + dst + PutUint64(seqNo)
  }

  /** Equal associated data means equal stream, direction and number. */
  lemma StreamAadIsInjective(s1: Id16, a1: Raw, b1: Raw, n1: Uint64, s2: Id16, a2: Raw, b2: Raw, n2: Uint64)
    requires StreamAad(s1, a1, b1, n1) == StreamAad(s2, a2, b2, n2)
    ensures s1 == s2 && a1 == a2 && b1 == b2 && n1 == n2
  {
    var x := StreamAad(s1, a1, b1, n1);
    var y := StreamAad(s2, a2, b2, n2);
    assert x[..16] == s1 && x[16..48] == a1 && x[48..80] == b1 && x[80..] == PutUint64(n1);
    assert y[..16] == s2 && y[16..48] == a2 && y[48..80] == b2 && y[80..] == PutUint64(n2);
  }

  lemma StreamAadLayout(s: Id16, a: Raw, b: Raw, n: Uint64)
    ensures var x := StreamAad(s, a, b, n);
            |x| == 88 && x[..16] == s && x[16..48] == a && x[48..80] == b && Value(x[80..]) == n
  {
    assert StreamAad(s, a, b, n)[80..] == PutUint64(n);
  }

  // ---------------------------------------------------------------- HKDF

  /** A one-byte counter wraps. */
  function Increment(b: Byte): Byte { if b == 255 then 0 else b + 1 }

  function Octet(n: nat): Byte { if n == 0 then 0 else Increment(Octet(n - 1)) }

  /** Block `n` of section 2.3 of RFC 5869; block 0 is empty. */
  function Block(hmac: (Bytes, Bytes) -> Digest, prk: Bytes, info: Bytes, n: nat): (r: Bytes)
    ensures n > 0 ==> |r| == 32
  {
    if n == 0 then [] else hmac(prk, Block(hmac, prk, info, n - 1) + info + [Octet(n)])
  }

  function Blocks(hmac: (Bytes, Bytes) -> Digest, prk: Bytes, info: Bytes, n: nat): (r: Bytes)
    ensures |r| == 32 * n
  {
    if n == 0 then [] else Blocks(hmac, prk, info, n - 1) + Block(hmac, prk, info, n)
  }

  /** The output of sections 2.2 and 2.3: the first `length` bytes of enough blocks. */
  function HkdfOf(hmac: (Bytes, Bytes) -> Digest, secret: Bytes, salt: Bytes, info: Bytes, length: nat): (out: Bytes)
    ensures |out| == length
  {
    Blocks(hmac, hmac(salt, secret), info, (length + 31) / 32)[..length]
  }

  /** The first two blocks, written out. */
  lemma TwoBlocks(hmac: (Bytes, Bytes) -> Digest, prk: Bytes, info: Bytes)
    ensures var first := hmac(prk, info + [1]);
            Blocks(hmac, prk, info, 2) == first + hmac(prk, first + info + [2])
  {
    var first := hmac(prk, info + [1]);
    assert [] + info + [1] == info + [1];
    assert Octet(1) == 1 && Octet(2) == Increment(Octet(1));
    assert Block(hmac, prk, info, 1) == first;
    assert Block(hmac, prk, info, 2) == hmac(prk, first + info + [2]);
    assert Blocks(hmac, prk, info, 1) == [] + first;
  }

  /** Extract, then expand block by block until there are enough bytes: the first `length` bytes
      of the concatenated blocks, however many blocks one looks at. */
  method Hkdf(hmac: (Bytes, Bytes) -> Digest, secret: Bytes, salt: Bytes, info: Bytes, length: nat) returns (out: Bytes)
    ensures out == HkdfOf(hmac, secret, salt, info, length)
    ensures forall n :: 32 * n >= length ==> out == Blocks(hmac, hmac(salt, secret), info, n)[..length]
  {
    var prk := hmac(salt, secret);
    out := [];
    var previous: Bytes := [];
    var counter: Byte := 1;
    ghost var n: nat := 0;
    while |out| < length
      invariant out == Blocks(hmac, prk, info, n) && previous == Block(hmac, prk, info, n)
      invariant counter == Octet(n + 1)
      decreases length - |out|
    {
      previous := hmac(prk, previous + info + [counter]);
      out := out + previous;
      counter := Increment(counter);
      n := n + 1;
    }
    forall m | 32 * m >= length ensures out[..length] == Blocks(hmac, prk, info, m)[..length] {
      EnoughBlocks(hmac, prk, info, length, n, m);
    }
    out := out[..length];
  }

  lemma EnoughBlocks(hmac: (Bytes, Bytes) -> Digest, prk: Bytes, info: Bytes, length: nat, n: nat, m: nat)
    requires length <= 32 * n && length <= 32 * m
    ensures Blocks(hmac, prk, info, n)[..length] == Blocks(hmac, prk, info, m)[..length]
  {
    var few := if n <= m then n else m;
    BlocksExtend(hmac, prk, info, few, n);
    BlocksExtend(hmac, prk, info, few, m);
    TakeTake(Blocks(hmac, prk, info, n), 32 * few, length);
    TakeTake(Blocks(hmac, prk, info, m), 32 * few, length);
  }

  lemma TakeTake<T>(s: seq<T>, i: nat, j: nat)
    requires j <= i <= |s|
    ensures s[..i][..j] == s[..j]
  {
  }

  lemma {:induction false} BlocksExtend(hmac: (Bytes, Bytes) -> Digest, prk: Bytes, info: Bytes, n: nat, m: nat)
    ensures n <= m ==> Blocks(hmac, prk, info, m)[..32 * n] == Blocks(hmac, prk, info, n)
  {
    if n < m {
      BlocksExtend(hmac, prk, info, n, m - 1);
      var b := Blocks(hmac, prk, info, m - 1);
      assert (b + Block(hmac, prk, info, m))[..32 * n] == b[..32 * n];
    }
  }

  // ---------------------------------------------------------------- key agreement

  /** X25519 as the protocols use it: a public key for every private one, and a shared secret. */
  datatype Agreement = Agreement(public: nat -> Bytes, shared: (nat, Bytes) -> Bytes)

  ghost predicate Commutes(x: Agreement) {
    forall a, b :: x.shared(a, x.public(b)) == x.shared(b, x.public(a))
  }

  function Ascii(s: string): Bytes { seq(|s|, i requires 0 <= i < |s| => s[i] as int % 256) }
}
