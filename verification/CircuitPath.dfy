/** Choosing the nodes of an onion circuit: the shortest route, or a detour over the first
    waypoint that makes it long enough. */
module CircuitPath {
  import opened Common
  import opened NodeId
  import opened Paths
  import opened Router
  import opened Sorting

  datatype PathResult = PathFound(path: Path) | NoRoute

  /** `p` goes from `s` to `d` over `way`, by two least walks, without visiting a node twice,
      and has an acceptable number of hops. */
  ghost predicate Detour(adv: Advertised, s: Id, d: Id, way: Id, minHops: nat, maxHops: nat, p: Path) {
    && way != s && way != d
    && NoRepeats(p)
    && minHops <= |p| - 1 <= maxHops
    && exists p1, p2 :: LeastWalk(adv, s, way, p1) && LeastWalk(adv, way, d, p2) && p == p1 + p2[1..]
  }

  ghost predicate NoDetourOver(adv: Advertised, s: Id, d: Id, way: Id, minHops: nat, maxHops: nat) {
    forall p :: !Detour(adv, s, d, way, minHops, maxHops, p)
  }

  /** What a detour or a shortest route is for: a simple walk over mutual links. */
  ghost predicate GoodPath(adv: Advertised, s: Id, d: Id, p: Path) {
    WalkBetween(adv, s, d, p) && NoRepeats(p)
  }

  lemma DetourIsGood(adv: Advertised, s: Id, d: Id, way: Id, minHops: nat, maxHops: nat, p: Path)
    requires Detour(adv, s, d, way, minHops, maxHops, p)
    ensures GoodPath(adv, s, d, p)
  {
    var p1, p2 :| LeastWalk(adv, s, way, p1) && LeastWalk(adv, way, d, p2) && p == p1 + p2[1..];
    WalkJoin(adv, p1, p2);
  }

  method HasNoRepeats(p: Path) returns (ok: bool)
    ensures ok <==> NoRepeats(p)
  {
    var seen: set<Id> := {};
    for i := 0 to |p|
      invariant forall x :: x in seen <==> x in p[..i]
      invariant NoRepeats(p[..i])
    {
      if p[i] in seen {
        var k :| 0 <= k < i && p[..i][k] == p[i];
        return false;
      }
      seen := seen + {p[i]};
      assert p[..i + 1] == p[..i] + [p[i]];
    }
    assert p[..|p|] == p;
    return true;
  }

  /** Two least walks determine the concatenation, so one failed check rules the waypoint out. */
  lemma OneCombination(adv: Advertised, s: Id, d: Id, way: Id, p1: Path, p2: Path, minHops: nat, maxHops: nat)
    requires LeastWalk(adv, s, way, p1) && LeastWalk(adv, way, d, p2)
    requires !NoRepeats(p1 + p2[1..]) || !(minHops <= |p1 + p2[1..]| - 1 <= maxHops)
    ensures NoDetourOver(adv, s, d, way, minHops, maxHops)
  {
    forall p ensures !Detour(adv, s, d, way, minHops, maxHops, p) {
      forall q1, q2 | LeastWalk(adv, s, way, q1) && LeastWalk(adv, way, d, q2) ensures q1 == p1 && q2 == p2 {
        LeastWalkIsUnique(adv, s, way, p1, q1);
        LeastWalkIsUnique(adv, way, d, p2, q2);
      }
    }
  }

  lemma UnreachedWaypoint(adv: Advertised, s: Id, d: Id, way: Id, minHops: nat, maxHops: nat)
    requires !Reachable(adv, s, way) || !Reachable(adv, way, d)
    ensures NoDetourOver(adv, s, d, way, minHops, maxHops)
  {
  }

  lemma UnknownWaypoint(adv: Advertised, s: Id, d: Id, way: Id, minHops: nat, maxHops: nat)
    requires way !in adv
    ensures NoDetourOver(adv, s, d, way, minHops, maxHops)
  {
    forall p ensures !Detour(adv, s, d, way, minHops, maxHops, p) {
      if way != s {
        forall p1 ensures !LeastWalk(adv, s, way, p1) {
          if WalkBetween(adv, s, way, p1) {
            FoundIsKnown(adv, s, way, p1);
          }
        }
      }
    }
  }

  method CircuitPathTo(local: Id, lsas: map<Id, Neighbors>, routes: map<Id, Route>, dst: Id, minHops: nat, maxHops: nat)
    returns (r: PathResult)
    requires RoutesFor(local, AdvertisedOf(lsas), routes)
    ensures var adv := AdvertisedOf(lsas);
            && (r.NoRoute? <==> dst == local || !Reachable(adv, local, dst))
            && (r.PathFound? ==> GoodPath(adv, local, dst, r.path))
            && (r.PathFound? && !LeastWalk(adv, local, dst, r.path) ==>
                  exists way :: Detour(adv, local, dst, way, minHops, maxHops, r.path)
                             && forall w :: w < way ==> NoDetourOver(adv, local, dst, w, minHops, maxHops))
            && (r.PathFound? && |r.path| - 1 < minHops ==>
                  forall way :: NoDetourOver(adv, local, dst, way, minHops, maxHops))
            && (r.PathFound? ==> forall p :: LeastWalk(adv, local, dst, p) && |p| - 1 >= minHops ==> r.path == p)
  {
    ghost var adv := AdvertisedOf(lsas);
    if dst !in routes {
      return NoRoute;
    }
    var best := routes[dst].path;
    LeastWalkIsSimple(adv, local, dst, best);
    forall p | LeastWalk(adv, local, dst, p) ensures p == best {
      LeastWalkIsUnique(adv, local, dst, p, best);
    }
    if |best| - 1 >= minHops {
      return PathFound(best);
    }
    var candidates := CandidatesFor(local, dst, lsas);
    for i := 0 to |candidates|
      invariant forall k :: 0 <= k < i ==> NoDetourOver(adv, local, dst, candidates[k], minHops, maxHops)
    {
      var way := candidates[i];
      assert way in candidates;
      var detour := TryWaypoint(local, lsas, dst, way, minHops, maxHops);
      if detour.PathFound? {
        DetourIsGood(adv, local, dst, way, minHops, maxHops, detour.path);
        forall w | w < way ensures NoDetourOver(adv, local, dst, w, minHops, maxHops) {
          EarlierWaypoint(adv, local, dst, w, candidates, i, minHops, maxHops);
        }
        return detour;
      }
    }
    forall way ensures NoDetourOver(adv, local, dst, way, minHops, maxHops) {
      if way !in adv {
        UnknownWaypoint(adv, local, dst, way, minHops, maxHops);
      } else if way != local && way != dst {
        assert way in candidates;
      }
    }
    return PathFound(best);
  }

  lemma EarlierWaypoint(adv: Advertised, local: Id, dst: Id, w: Id, candidates: seq<Id>, i: nat, minHops: nat, maxHops: nat)
    requires StrictlyIncreasing(candidates) && i < |candidates| && w < candidates[i]
    requires forall x :: x in candidates <==> x in adv && x != local && x != dst
    requires forall k :: 0 <= k < i ==> NoDetourOver(adv, local, dst, candidates[k], minHops, maxHops)
    ensures NoDetourOver(adv, local, dst, w, minHops, maxHops)
  {
    if w !in adv {
      UnknownWaypoint(adv, local, dst, w, minHops, maxHops);
    } else if w in candidates {
      var k :| 0 <= k < |candidates| && candidates[k] == w;
      assert k < i;
    }
  }

  method CandidatesFor(local: Id, dst: Id, lsas: map<Id, Neighbors>) returns (candidates: seq<Id>)
    ensures StrictlyIncreasing(candidates)
    ensures forall x :: x in candidates <==> x in AdvertisedOf(lsas) && x != local && x != dst
  {
    candidates := [];
    var todo := lsas.Keys;
    while todo != {}
      invariant todo <= lsas.Keys
      invariant NoRepeats(candidates)
      invariant forall x :: x in candidates <==> x in lsas && x !in todo && x != local && x != dst
      decreases todo
    {
      var id :| id in todo;
      todo := todo - {id};
      if id != local && id != dst {
        candidates := candidates + [id];
      }
    }
    candidates := SortIds(candidates);
  }

  /** One turn of the search: two fresh route computations and the checks on their concatenation. */
  method TryWaypoint(local: Id, lsas: map<Id, Neighbors>, dst: Id, way: Id, minHops: nat, maxHops: nat)
    returns (r: PathResult)
    requires way != local && way != dst
    ensures r.PathFound? ==> Detour(AdvertisedOf(lsas), local, dst, way, minHops, maxHops, r.path)
    ensures r.NoRoute? ==> NoDetourOver(AdvertisedOf(lsas), local, dst, way, minHops, maxHops)
  {
    ghost var adv := AdvertisedOf(lsas);
    var first := Compute(local, lsas);
    var second := Compute(way, lsas);
    if way !in first || dst !in second {
      UnreachedWaypoint(adv, local, dst, way, minHops, maxHops);
      return NoRoute;
    }
    var combined := first[way].path + second[dst].path[1..];
    var valid := HasNoRepeats(combined);
    if valid && minHops <= |combined| - 1 <= maxHops {
      return PathFound(combined);
    }
    OneCombination(adv, local, dst, way, first[way].path, second[dst].path, minHops, maxHops);
    return NoRoute;
  }
}
