/** Paths over mutually advertised links, and the order that picks one of them. */
module Paths {
  import opened Common
  import opened NodeId

  /** What each node advertises: its own identifier is never in its own set. */
  type Advertised = map<Id, set<Id>>

  type Path = seq<Id>

  /** A link is usable when both ends advertise each other. */
  predicate Adjacent(adv: Advertised, a: Id, b: Id) {
    a in adv && b in adv && b in adv[a] && a in adv[b]
  }

  ghost predicate Walk(adv: Advertised, p: Path) {
    && |p| > 0
    && forall i :: 0 <= i < |p| - 1 ==> Adjacent(adv, p[i], p[i + 1])
  }

  ghost predicate WalkBetween(adv: Advertised, s: Id, d: Id, p: Path) {
    Walk(adv, p) && p[0] == s && p[|p| - 1] == d
  }

  ghost predicate Reachable(adv: Advertised, s: Id, d: Id) {
    exists p :: WalkBetween(adv, s, d, p)
  }

  /** `p` and `q` first differ at position `i`, where `p` has the smaller identifier. */
  ghost predicate FirstSmaller(p: Path, q: Path, i: nat) {
    i < |p| && i < |q| && p[i] < q[i] && forall k :: 0 <= k < i ==> p[k] == q[k]
  }

  /** Shorter first; among equally long paths, lexicographic by identifier. */
  ghost predicate Before(p: Path, q: Path) {
    |p| < |q| || (|p| == |q| && exists i: nat :: FirstSmaller(p, q, i))
  }

  ghost predicate AtMost(p: Path, q: Path) {
    p == q || Before(p, q)
  }

  /** `p` is the lexicographically smallest among all shortest walks from `s` to `d`. */
  ghost predicate LeastWalk(adv: Advertised, s: Id, d: Id, p: Path) {
    && WalkBetween(adv, s, d, p)
    && forall q :: WalkBetween(adv, s, d, q) ==> AtMost(p, q)
  }

  // ---------------------------------------------------------------- the order

  lemma {:induction false} BeforeIsTotal(p: Path, q: Path)
    ensures p == q || Before(p, q) || Before(q, p)
    decreases |p|
  {
    if |p| == |q| && p != q {
      var n := |p| - 1;
      BeforeIsTotal(p[..n], q[..n]);
      if p[..n] == q[..n] {
        assert p == p[..n] + [p[n]] && q == q[..n] + [q[n]];
        assert FirstSmaller(p, q, n) || FirstSmaller(q, p, n);
      } else if Before(p[..n], q[..n]) {
        var i: nat :| FirstSmaller(p[..n], q[..n], i);
        assert FirstSmaller(p, q, i);
      } else {
        var i: nat :| FirstSmaller(q[..n], p[..n], i);
        assert FirstSmaller(q, p, i);
      }
    }
  }

  lemma BeforeIsAsymmetric(p: Path, q: Path)
    requires Before(p, q)
    ensures !Before(q, p) && p != q
  {
    if |p| == |q| {
      var i: nat :| FirstSmaller(p, q, i);
      assert forall j: nat :: !FirstSmaller(q, p, j);
    }
  }

  lemma BeforeIsTransitive(p: Path, q: Path, r: Path)
    requires AtMost(p, q) && AtMost(q, r)
    ensures AtMost(p, r)
    ensures p != q || q != r ==> Before(p, r)
  {
    if p != q && q != r && |p| == |q| == |r| {
      var i: nat :| FirstSmaller(p, q, i);
      var j: nat :| FirstSmaller(q, r, j);
      var k := if i < j then i else j;
      assert FirstSmaller(p, r, k);
    }
  }

  /** Extending both paths by one node keeps a strict order, whatever the new nodes are. */
  lemma ExtendKeepsBefore(p: Path, q: Path, x: Id, y: Id)
    requires Before(p, q)
    ensures Before(p + [x], q + [y])
  {
    if |p| == |q| {
      var i: nat :| FirstSmaller(p, q, i);
      assert FirstSmaller(p + [x], q + [y], i);
    }
  }

  lemma ExtendBySmaller(p: Path, x: Id, y: Id)
    requires x < y
    ensures Before(p + [x], p + [y])
  {
    assert FirstSmaller(p + [x], p + [y], |p|);
  }

  // ---------------------------------------------------------------- least walks

  lemma LeastWalkIsUnique(adv: Advertised, s: Id, d: Id, p: Path, q: Path)
    requires LeastWalk(adv, s, d, p) && LeastWalk(adv, s, d, q)
    ensures p == q
  {
    if p != q {
      BeforeIsAsymmetric(p, q);
    }
  }

  lemma WalkPrefix(adv: Advertised, p: Path, n: nat)
    requires Walk(adv, p) && 0 < n <= |p|
    ensures WalkBetween(adv, p[0], p[n - 1], p[..n])
  {
  }

  lemma WalkSuffix(adv: Advertised, p: Path, n: nat)
    requires Walk(adv, p) && n < |p|
    ensures WalkBetween(adv, p[n], p[|p| - 1], p[n..])
  {
    forall i | 0 <= i < |p[n..]| - 1 ensures Adjacent(adv, p[n..][i], p[n..][i + 1]) {
      assert Adjacent(adv, p[n + i], p[n + i + 1]);
    }
  }

  lemma WalkExtend(adv: Advertised, p: Path, x: Id)
    requires Walk(adv, p) && Adjacent(adv, p[|p| - 1], x)
    ensures WalkBetween(adv, p[0], x, p + [x])
  {
  }

  /** Two walks that meet: the end of the first is the start of the second. */
  lemma WalkJoin(adv: Advertised, p: Path, q: Path)
    requires Walk(adv, p) && Walk(adv, q) && p[|p| - 1] == q[0]
    ensures WalkBetween(adv, p[0], q[|q| - 1], p + q[1..])
  {
    var r := p + q[1..];
    forall i | 0 <= i < |r| - 1 ensures Adjacent(adv, r[i], r[i + 1]) {
      if i == |p| - 1 {
        assert Adjacent(adv, q[0], q[1]);
      } else if i >= |p| {
        assert Adjacent(adv, q[i - |p| + 1], q[i - |p| + 2]);
      }
    }
  }

  lemma {:induction false} WalkReverses(adv: Advertised, s: Id, d: Id, p: Path)
    requires WalkBetween(adv, s, d, p)
    ensures Reachable(adv, d, s)
    decreases |p|
  {
    if |p| == 1 {
      assert WalkBetween(adv, d, s, p);
    } else {
      WalkSuffix(adv, p, 1);
      WalkReverses(adv, p[1], d, p[1..]);
      var q :| WalkBetween(adv, d, p[1], q);
      assert Adjacent(adv, p[0], p[1]);
      WalkExtend(adv, q, s);
    }
  }

  /** Cutting a loop out of a walk leaves a strictly shorter walk between the same ends,
      so a least walk never visits a node twice. */
  lemma LeastWalkIsSimple(adv: Advertised, s: Id, d: Id, p: Path)
    requires LeastWalk(adv, s, d, p)
    ensures NoRepeats(p)
  {
    forall i, j | 0 <= i < j < |p| ensures p[i] != p[j] {
      if p[i] == p[j] {
        ShortCut(adv, s, d, p, i, j);
        assert false;
      }
    }
  }

  /** A walk that comes back to a node can be shortened. */
  lemma ShortCut(adv: Advertised, s: Id, d: Id, p: Path, i: nat, j: nat)
    requires WalkBetween(adv, s, d, p) && i < j < |p| && p[i] == p[j]
    ensures exists q :: WalkBetween(adv, s, d, q) && |q| < |p|
  {
    WalkPrefix(adv, p, i + 1);
    WalkSuffix(adv, p, j);
    WalkJoin(adv, p[..i + 1], p[j..]);
    var q := p[..i + 1] + p[j..][1..];
    assert WalkBetween(adv, s, d, q);
  }

  lemma ExtendFrontKeepsBefore(x: Id, p: Path, q: Path)
    requires Before(p, q)
    ensures Before([x] + p, [x] + q)
  {
    if |p| == |q| {
      var i: nat :| FirstSmaller(p, q, i);
      assert FirstSmaller([x] + p, [x] + q, i + 1);
    }
  }

  /** What is left of a least walk after its first hop is the least walk from the next node,
      so nodes that each look only at their own table agree on the whole path. */
  lemma LeastWalkTail(adv: Advertised, s: Id, d: Id, p: Path)
    requires LeastWalk(adv, s, d, p) && |p| >= 2
    ensures LeastWalk(adv, p[1], d, p[1..])
  {
    WalkSuffix(adv, p, 1);
    assert Adjacent(adv, p[0], p[1]);
    assert p == [s] + p[1..];
    forall q | WalkBetween(adv, p[1], d, q) ensures AtMost(p[1..], q) {
      WalkJoin(adv, [p[0], p[1]], q);
      assert [p[0], p[1]] + q[1..] == [s] + q;
      assert AtMost(p, [s] + q);
      BeforeIsTotal(p[1..], q);
      if Before(q, p[1..]) {
        ExtendFrontKeepsBefore(s, q, p[1..]);
        BeforeIsAsymmetric([s] + q, p);
        assert false;
      }
    }
  }
}
