/** Node identifiers: 32 raw bytes, ordered by a byte-by-byte comparison.

    Everywhere else an identifier is the natural number its bytes spell in big-endian
    order. `CompareIsNumericOrder` says that this loses nothing: the byte comparison the
    program sorts by is exactly `<` on those numbers. */
module NodeId {

  type Byte = b: int | 0 <= b < 256

  type Raw = s: seq<Byte> | |s| == 32 witness seq(32, _ => 0)

  const ID_SPACE: nat := 0x1_0000_0000_0000_0000_0000_0000_0000_0000_0000_0000_0000_0000_0000_0000_0000_0000

  type Id = v: nat | v < ID_SPACE

  function Pow256(n: nat): (r: nat)
    ensures r >= 1
  {
    if n == 0 then 1 else 256 * Pow256(n - 1)
  }

  /** Big-endian value of a byte string. */
  function Value(s: seq<Byte>): (r: nat)
    ensures r < Pow256(|s|)
  {
    if s == [] then 0 else 256 * Value(s[..|s| - 1]) + s[|s| - 1]
  }

  /** Three-way comparison of equally long byte strings, first difference decides. */
  function Compare(a: seq<Byte>, b: seq<Byte>): (r: int)
    requires |a| == |b|
    ensures r == -1 || r == 0 || r == 1
  {
    if a == [] then 0
    else if a[0] < b[0] then -1
    else if a[0] > b[0] then 1
    else Compare(a[1..], b[1..])
  }

  lemma {:induction false} CompareSnoc(a: seq<Byte>, b: seq<Byte>, x: Byte, y: Byte)
    requires |a| == |b|
    ensures Compare(a + [x], b + [y]) ==
            if Compare(a, b) != 0 then Compare(a, b) else Compare([x], [y])
  {
    if a == [] {
      assert a + [x] == [x] && b + [y] == [y];
    } else {
      CompareSnoc(a[1..], b[1..], x, y);
      assert (a + [x])[1..] == a[1..] + [x] && (b + [y])[1..] == b[1..] + [y];
    }
  }

  lemma {:induction false} CompareIsNumericOrder(a: seq<Byte>, b: seq<Byte>)
    requires |a| == |b|
    ensures Compare(a, b) < 0 <==> Value(a) < Value(b)
    ensures Compare(a, b) > 0 <==> Value(a) > Value(b)
    ensures Compare(a, b) == 0 <==> a == b
    ensures Value(a) == Value(b) <==> a == b
  {
    if a != [] {
      var n := |a| - 1;
      CompareIsNumericOrder(a[..n], b[..n]);
      CompareSnoc(a[..n], b[..n], a[n], b[n]);
      assert a == a[..n] + [a[n]] && b == b[..n] + [b[n]];
    }
  }

  /** The `n` big-endian digits of `v`. */
  function Digits(v: nat, n: nat): (s: seq<Byte>)
    requires v < Pow256(n)
    ensures |s| == n
    ensures Value(s) == v
  {
    if n == 0 then []
    else
      var s := Digits(v / 256, n - 1) + [v % 256];
      assert s[..n - 1] == Digits(v / 256, n - 1);
      s
  }

  lemma IdSpaceIsThirtyTwoBytes()
    ensures Pow256(32) == ID_SPACE
  {
    assert Pow256(4) == 0x1_0000_0000;
    assert Pow256(8) == 0x1_0000_0000_0000_0000 by { Squares(4); }
    assert Pow256(16) == 0x1_0000_0000_0000_0000_0000_0000_0000_0000 by { Squares(8); }
    Squares(16);
  }

  lemma {:induction false} PowAdds(m: nat, n: nat)
    ensures Pow256(m + n) == Pow256(m) * Pow256(n)
  {
    if m > 0 {
      PowAdds(m - 1, n);
      assert Pow256(m + n) == 256 * (Pow256(m - 1) * Pow256(n));
    }
  }

  lemma Squares(n: nat)
    ensures Pow256(2 * n) == Pow256(n) * Pow256(n)
  {
    PowAdds(n, n);
  }

  /** The raw bytes of an identifier. */
  function Bytes(id: Id): (s: Raw)
    ensures Value(s) == id
  {
    IdSpaceIsThirtyTwoBytes();
    Digits(id, 32)
  }

  function FromBytes(raw: Raw): (id: Id)
    ensures Bytes(id) == raw
  {
    IdSpaceIsThirtyTwoBytes();
    var id: nat := Value(raw);
    CompareIsNumericOrder(Digits(id, 32), raw);
    id
  }
}
