/** Which nodes keep a service descriptor: the ones whose identifiers are XOR-closest to it. */
module Directory {
  import opened Common
  import opened NodeId
  import opened Router
  import opened Sorting

  /** Exclusive or of two `n`-bit numbers. */
  function XorBits(x: nat, y: nat, n: nat): (r: nat)
    ensures r < Pow2(n)
  {
    if n == 0 then 0 else 2 * XorBits(x / 2, y / 2, n - 1) + (x + y) % 2
  }

  function Pow2(n: nat): (r: nat)
    ensures r >= 1
  {
    if n == 0 then 1 else 2 * Pow2(n - 1)
  }

  function XorByte(x: Byte, y: Byte): Byte {
    assert Pow2(4) == 16;
    assert Pow2(8) == 256;
    XorBits(x, y, 8)
  }

  function XorBytes(a: seq<Byte>, t: seq<Byte>): (r: seq<Byte>)
    requires |a| == |t|
    ensures |r| == |a| && forall i :: 0 <= i < |a| ==> r[i] == XorByte(a[i], t[i])
  {
    seq(|a|, i requires 0 <= i < |a| => XorByte(a[i], t[i]))
  }

  /** The distance of a node to a service: their exclusive or, read as a number. */
  function Distance(id: Id, target: Raw): nat {
    Value(XorBytes(Bytes(id), target))
  }

  // ---------------------------------------------------------------- what the distance is

  /** Bit `k` of a number, the lowest first. */
  function Bit(x: nat, k: nat): nat { if k == 0 then x % 2 else Bit(x / 2, k - 1) }

  /** A bit of the distance is set exactly where the two numbers differ. */
  lemma {:induction false} XorSetsDifferingBits(x: nat, y: nat, n: nat, k: nat)
    requires k < n
    ensures Bit(XorBits(x, y, n), k) == 1 <==> Bit(x, k) != Bit(y, k)
  {
    LastBit(XorBits(x / 2, y / 2, n - 1), (x + y) % 2);
    if k == 0 {
      LastBitDiffers(x, y);
    } else {
      XorSetsDifferingBits(x / 2, y / 2, n - 1, k - 1);
    }
  }

  lemma LastBit(q: nat, r: nat)
    requires r < 2
    ensures (2 * q + r) % 2 == r && (2 * q + r) / 2 == q
  {
  }

  lemma LastBitDiffers(x: nat, y: nat)
    ensures (x + y) % 2 == 1 <==> x % 2 != y % 2
  {
  }

  lemma {:induction false} XorOfSame(x: nat, n: nat)
    ensures XorBits(x, x, n) == 0
  {
    if n > 0 {
      XorOfSame(x / 2, n - 1);
    }
  }

  lemma {:induction false} ZerosAreZero(b: seq<Byte>)
    requires forall i :: 0 <= i < |b| ==> b[i] == 0
    ensures Value(b) == 0
  {
    if b != [] {
      ZerosAreZero(b[..|b| - 1]);
    }
  }

  /** Nothing but the node with the identifier of the service itself is at distance 0. */
  lemma ZeroDistanceIsEquality(id: Id, target: Raw)
    ensures Distance(id, target) == 0 <==> Bytes(id) == target
  {
    var own := FromBytes(target);
    forall i | 0 <= i < 32 ensures XorBytes(target, target)[i] == 0 { XorOfSame(target[i], 8); }
    ZerosAreZero(XorBytes(target, target));
    if Distance(id, target) == 0 {
      DistanceIsInjective(id, own, target);
    }
  }

  lemma SameParity(x: nat, y: nat, t: nat)
    requires (x + t) % 2 == (y + t) % 2
    ensures x % 2 == y % 2
  {
  }

  lemma {:induction false} XorIsInjective(x: nat, y: nat, t: nat, n: nat)
    requires x < Pow2(n) && y < Pow2(n) && XorBits(x, t, n) == XorBits(y, t, n)
    ensures x == y
  {
    if n > 0 {
      XorIsInjective(x / 2, y / 2, t / 2, n - 1);
      SameParity(x, y, t);
    }
  }

  lemma XorBytesIsInjective(a: seq<Byte>, b: seq<Byte>, t: seq<Byte>)
    requires |a| == |b| == |t| && XorBytes(a, t) == XorBytes(b, t)
    ensures a == b
  {
    assert Pow2(4) == 16;
    assert Pow2(8) == 256;
    forall i | 0 <= i < |a| ensures a[i] == b[i] {
      assert XorBytes(a, t)[i] == XorBytes(b, t)[i];
      XorIsInjective(a[i], b[i], t[i], 8);
    }
  }

  lemma DistanceIsInjective(a: Id, b: Id, target: Raw)
    requires Distance(a, target) == Distance(b, target)
    ensures a == b
  {
    CompareIsNumericOrder(XorBytes(Bytes(a), target), XorBytes(Bytes(b), target));
    XorBytesIsInjective(Bytes(a), Bytes(b), target);
    assert Value(Bytes(a)) == Value(Bytes(b));
  }

  /** The program's comparison, byte by byte with a tie-break on the identifiers. */
  method XorLess(a: Raw, b: Raw, target: Raw) returns (less: bool)
    ensures less <==> Value(XorBytes(a, target)) < Value(XorBytes(b, target))
  {
    ghost var p, q := XorBytes(a, target), XorBytes(b, target);
    for i := 0 to 32
      invariant p[..i] == q[..i]
    {
      var x := XorByte(a[i], target[i]);
      var y := XorByte(b[i], target[i]);
      if x != y {
        FirstDifferenceDecides(p, q, i);
        return x < y;
      }
    }
    assert p == p[..32] && q == q[..32];
    XorBytesIsInjective(a, b, target);
    CompareIsNumericOrder(a, b);
    return Compare(a, b) < 0;
  }

  lemma {:induction false} FirstDifferenceDecides(p: seq<Byte>, q: seq<Byte>, i: nat)
    requires |p| == |q| && i < |p| && p[..i] == q[..i] && p[i] != q[i]
    ensures Value(p) < Value(q) <==> p[i] < q[i]
    decreases i
  {
    CompareIsNumericOrder(p, q);
    if i > 0 {
      assert p[0] == p[..i][0] == q[..i][0] == q[0];
      assert p[1..][..i - 1] == p[..i][1..] == q[..i][1..] == q[1..][..i - 1];
      FirstDifferenceDecides(p[1..], q[1..], i - 1);
      CompareIsNumericOrder(p[1..], q[1..]);
    }
  }

  // ---------------------------------------------------------------- the replica list

  /** `r` lists the `count` closest of `members` (all, if there are fewer), closest first. */
  ghost predicate ReplicasFor(members: set<Id>, target: Raw, count: nat, r: seq<Id>) {
    && |r| == (if count < |members| then count else |members|)
    && (forall x :: x in r ==> x in members)
    && (forall i, j :: 0 <= i < j < |r| ==> Distance(r[i], target) < Distance(r[j], target))
    && (forall x, y :: x in r && y in members && y !in r ==> Distance(x, target) < Distance(y, target))
  }

  lemma SmallerStart(members: set<Id>, target: Raw, count: nat, r1: seq<Id>, r2: seq<Id>, k: nat)
    requires ReplicasFor(members, target, count, r1) && ReplicasFor(members, target, count, r2)
    requires k < |r1| && r1[..k] == r2[..k]
    ensures Distance(r1[k], target) >= Distance(r2[k], target)
  {
    assert r1[k] in r1;
    forall m | 0 <= m < k ensures r1[m] == r2[m] {
      assert r1[m] == r1[..k][m] == r2[..k][m] == r2[m];
    }
    if r1[k] in r2 {
      var j :| 0 <= j < |r2| && r2[j] == r1[k];
    } else {
      assert r2[k] in r2;
    }
  }

  lemma SameNext(members: set<Id>, target: Raw, count: nat, r1: seq<Id>, r2: seq<Id>, k: nat)
    requires ReplicasFor(members, target, count, r1) && ReplicasFor(members, target, count, r2)
    requires k < |r1| && r1[..k] == r2[..k]
    ensures r1[k] == r2[k]
  {
    SmallerStart(members, target, count, r1, r2, k);
    SmallerStart(members, target, count, r2, r1, k);
    DistanceIsInjective(r1[k], r2[k], target);
  }

  lemma {:induction false} ReplicasAgreeUpTo(members: set<Id>, target: Raw, count: nat, r1: seq<Id>, r2: seq<Id>, k: nat)
    requires ReplicasFor(members, target, count, r1) && ReplicasFor(members, target, count, r2)
    requires k <= |r1|
    ensures r1[..k] == r2[..k]
  {
    if k > 0 {
      ReplicasAgreeUpTo(members, target, count, r1, r2, k - 1);
      SameNext(members, target, count, r1, r2, k - 1);
      assert r1[..k] == r1[..k - 1] + [r1[k - 1]] && r2[..k] == r2[..k - 1] + [r2[k - 1]];
    }
  }

  /** The replica list depends on nothing but the members, the service and the count. */
  lemma ReplicasAreDetermined(members: set<Id>, target: Raw, count: nat, r1: seq<Id>, r2: seq<Id>)
    requires ReplicasFor(members, target, count, r1) && ReplicasFor(members, target, count, r2)
    ensures r1 == r2
  {
    ReplicasAgreeUpTo(members, target, count, r1, r2, |r1|);
    assert r1 == r1[..|r1|] && r2 == r2[..|r2|];
  }

  /** A member whose identifier is that of the service heads its list. */
  lemma OwnServiceComesFirst(members: set<Id>, target: Raw, count: nat, r: seq<Id>)
    requires ReplicasFor(members, target, count, r) && count > 0 && FromBytes(target) in members
    ensures r != [] && r[0] == FromBytes(target)
  {
    var own := FromBytes(target);
    ZeroDistanceIsEquality(own, target);
    assert |members| > 0;
    assert r[0] in r;
    if own in r {
      var i :| 0 <= i < |r| && r[i] == own;
    }
  }

  lemma {:induction false} DistinctSize(ids: seq<Id>, members: set<Id>)
    requires NoRepeats(ids) && forall x :: x in ids <==> x in members
    ensures |ids| == |members|
  {
    if ids == [] {
      assert members == {};
    } else {
      var rest := ids[1..];
      forall x ensures x in rest <==> x in members - {ids[0]} {
        if x in rest {
          var i :| 0 <= i < |rest| && rest[i] == x;
          assert ids[0] != ids[i + 1];
        }
      }
      assert ids[0] in ids;
      DistinctSize(rest, members - {ids[0]});
    }
  }

  lemma TakeClosest(ids: seq<Id>, members: set<Id>, target: Raw, count: nat)
    requires NoRepeats(ids) && forall x :: x in ids <==> x in members
    requires forall i, j :: 0 <= i < j < |ids| ==> Distance(ids[i], target) <= Distance(ids[j], target)
    ensures ReplicasFor(members, target, count, ids[..if count < |ids| then count else |ids|])
  {
    DistinctSize(ids, members);
    var n := if count < |ids| then count else |ids|;
    var r := ids[..n];
    forall i, j | 0 <= i < j < |ids| ensures Distance(ids[i], target) < Distance(ids[j], target) {
      if Distance(ids[i], target) == Distance(ids[j], target) {
        DistanceIsInjective(ids[i], ids[j], target);
      }
    }
    assert forall m :: 0 <= m < n ==> r[m] == ids[m];
    forall x, y | x in r && y in members && y !in r ensures Distance(x, target) < Distance(y, target) {
      var i :| 0 <= i < |r| && r[i] == x;
      var j :| 0 <= j < |ids| && ids[j] == y;
    }
  }

  method ClosestDirectoryNodes(self: Id, routes: map<Id, Route>, target: Raw, count: nat) returns (r: seq<Id>)
    requires self !in routes
    ensures ReplicasFor(routes.Keys + {self}, target, count, r)
  {
    var ids := [self];
    var todo := routes.Keys;
    while todo != {}
      invariant todo <= routes.Keys
      invariant NoRepeats(ids)
      invariant forall x :: x in ids <==> x == self || (x in routes && x !in todo)
      decreases todo
    {
      var x :| x in todo;
      todo := todo - {x};
      ids := ids + [x];
    }
    var sorted := SortBy(ids, (x: Id) => Distance(x, target));
    SameElements(sorted, ids);
    assert forall i, j :: 0 <= i < j < |sorted| ==> Distance(sorted[i], target) <= Distance(sorted[j], target);
    TakeClosest(sorted, routes.Keys + {self}, target, count);
    r := sorted[..if count < |sorted| then count else |sorted|];
  }
}
