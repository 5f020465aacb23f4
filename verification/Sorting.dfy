/** The library sort, by an integer key. */
module Sorting {
  import opened Common
  import opened NodeId

  ghost predicate SortedBy(s: seq<Id>, key: Id -> int) {
    forall i, j :: 0 <= i < j < |s| ==> key(s[i]) <= key(s[j])
  }

  ghost predicate StrictlyIncreasing(s: seq<Id>) {
    forall i, j :: 0 <= i < j < |s| ==> s[i] < s[j]
  }

  method InsertBy(s: seq<Id>, x: Id, key: Id -> int) returns (r: seq<Id>)
    requires SortedBy(s, key)
    ensures |r| == |s| + 1
    ensures multiset(r) == multiset(s) + multiset{x}
    ensures SortedBy(r, key)
  {
    var k := 0;
    while k < |s| && key(s[k]) <= key(x)
      invariant k <= |s|
      invariant forall i :: 0 <= i < k ==> key(s[i]) <= key(x)
    {
      k := k + 1;
    }
    r := s[..k] + [x] + s[k..];
    assert s == s[..k] + s[k..];
    InsertedSorted(s, k, x, key);
  }

  lemma InsertedSorted(s: seq<Id>, k: nat, x: Id, key: Id -> int)
    requires SortedBy(s, key) && k <= |s|
    requires forall i :: 0 <= i < k ==> key(s[i]) <= key(x)
    requires k < |s| ==> key(x) <= key(s[k])
    ensures SortedBy(s[..k] + [x] + s[k..], key)
  {
    var r := s[..k] + [x] + s[k..];
    forall i, j | 0 <= i < j < |r| ensures key(r[i]) <= key(r[j]) {
      if i == k {
        assert key(s[k]) <= key(s[j - 1]);
      } else if i < k < j {
        assert key(s[i]) <= key(s[j - 1]);
      }
    }
  }

  method SortBy(s: seq<Id>, key: Id -> int) returns (r: seq<Id>)
    ensures |r| == |s|
    ensures multiset(r) == multiset(s)
    ensures SortedBy(r, key)
  {
    r := [];
    for n := 0 to |s|
      invariant |r| == n
      invariant multiset(r) == multiset(s[..n])
      invariant SortedBy(r, key)
    {
      r := InsertBy(r, s[n], key);
      assert s[..n + 1] == s[..n] + [s[n]];
    }
    assert s[..|s|] == s;
  }

  lemma SameElements(r: seq<Id>, s: seq<Id>)
    requires multiset(r) == multiset(s)
    ensures forall x :: x in r <==> x in s
    ensures NoRepeats(s) ==> NoRepeats(r)
  {
    forall x ensures x in r <==> x in s {
      assert x in multiset(r) <==> x in multiset(s);
    }
    if NoRepeats(s) && !NoRepeats(r) {
      var i, j :| 0 <= i < j < |r| && r[i] == r[j];
      TwiceInMultiset(r, i, j);
      var x := r[i];
      assert multiset(s)[x] >= 2;
      OnceInMultiset(s, x);
      assert false;
    }
  }

  lemma TwiceInMultiset(r: seq<Id>, i: nat, j: nat)
    requires i < j < |r| && r[i] == r[j]
    ensures multiset(r)[r[i]] >= 2
  {
    assert r == r[..j] + [r[j]] + r[j + 1..];
    assert r[i] in r[..j];
  }

  lemma {:induction false} OnceInMultiset(s: seq<Id>, x: Id)
    requires NoRepeats(s)
    ensures multiset(s)[x] <= 1
  {
    if s != [] {
      var n := |s| - 1;
      assert s == s[..n] + [s[n]];
      OnceInMultiset(s[..n], x);
      if s[n] == x {
        assert x !in s[..n];
      }
    }
  }

  method SortIds(s: seq<Id>) returns (r: seq<Id>)
    requires NoRepeats(s)
    ensures StrictlyIncreasing(r)
    ensures multiset(r) == multiset(s)
    ensures forall x :: x in r <==> x in s
  {
    r := SortBy(s, x => x);
    SameElements(r, s);
  }
}
