/** Route computation: mutual-edge adjacency, then a breadth-first search that visits
    neighbours in identifier order. */
module Router {
  import opened NodeId
  import opened Paths
  import opened Sorting

  /** A neighbour string of an announcement either parses to an identifier or does not. */
  datatype Neighbor = Known(id: Id) | Malformed

  /** The part of a link-state announcement that routing reads. */
  type Neighbors = seq<Neighbor>

  datatype Route = Route(destination: Id, nextHop: Id, hops: nat, path: Path)

  /** The set a node advertises, without itself and without unparsable entries. */
  function AdvertisedBy(id: Id, ns: Neighbors): set<Id> {
    set n | n in ns && n.Known? && n.id != id :: n.id
  }

  function AdvertisedOf(lsas: map<Id, Neighbors>): Advertised {
    map id | id in lsas :: AdvertisedBy(id, lsas[id])
  }

  function RouteOf(p: Path): Route
    requires |p| >= 2
  {
    Route(p[|p| - 1], p[1], |p| - 1, p)
  }

  /** The route table a database determines: one route for every other reachable node, over
      the lexicographically smallest shortest walk. */
  ghost predicate RoutesFor(local: Id, adv: Advertised, routes: map<Id, Route>) {
    && (forall d :: d in routes <==> d != local && Reachable(adv, local, d))
    && forall d :: d in routes ==>
         && |routes[d].path| >= 2
         && routes[d] == RouteOf(routes[d].path)
         && LeastWalk(adv, local, d, routes[d].path)
  }

  /** Whatever order the maps are iterated in, there is only one such table. */
  lemma RoutesAreDetermined(local: Id, adv: Advertised, r1: map<Id, Route>, r2: map<Id, Route>)
    requires RoutesFor(local, adv, r1) && RoutesFor(local, adv, r2)
    ensures r1 == r2
  {
    assert r1.Keys == r2.Keys;
    forall d | d in r1 ensures r1[d] == r2[d] {
      LeastWalkIsUnique(adv, local, d, r1[d].path, r2[d].path);
    }
  }

  // ---------------------------------------------------------------- the three loops

  method CollectAdvertised(lsas: map<Id, Neighbors>) returns (advertised: Advertised)
    ensures advertised == AdvertisedOf(lsas)
  {
    advertised := map[];
    var todo := lsas.Keys;
    while todo != {}
      invariant todo <= lsas.Keys
      invariant advertised.Keys == lsas.Keys - todo
      invariant forall id :: id in advertised ==> advertised[id] == AdvertisedBy(id, lsas[id])
      decreases todo
    {
      var id :| id in todo;
      var ns := lsas[id];
      var adv: set<Id> := {};
      for i := 0 to |ns|
        invariant adv == AdvertisedBy(id, ns[..i])
      {
        assert ns[..i + 1] == ns[..i] + [ns[i]];
        if ns[i].Known? && ns[i].id != id {
          adv := adv + {ns[i].id};
        }
      }
      assert ns[..|ns|] == ns;
      advertised := advertised[id := adv];
      todo := todo - {id};
    }
  }

  /** Every neighbour list is strictly increasing and holds exactly the mutual neighbours. */
  ghost predicate SortedAdjacency(adv: Advertised, adjacency: map<Id, seq<Id>>) {
    && adjacency.Keys == adv.Keys
    && forall a :: a in adjacency ==>
         && StrictlyIncreasing(adjacency[a])
         && forall b :: b in adjacency[a] <==> Adjacent(adv, a, b)
  }

  method BuildAdjacency(adv: Advertised) returns (adjacency: map<Id, seq<Id>>)
    ensures SortedAdjacency(adv, adjacency)
  {
    adjacency := map[];
    var todo := adv.Keys;
    while todo != {}
      invariant todo <= adv.Keys
      invariant adjacency.Keys == adv.Keys - todo
      invariant forall a :: a in adjacency ==>
                  && StrictlyIncreasing(adjacency[a])
                  && forall b :: b in adjacency[a] <==> Adjacent(adv, a, b)
      decreases todo
    {
      var a :| a in todo;
      var ns := adv[a];
      var list: seq<Id> := [];
      while ns != {}
        invariant ns <= adv[a]
        invariant forall b :: b in list <==> b in adv[a] && b !in ns && Adjacent(adv, a, b)
        invariant forall i, j :: 0 <= i < j < |list| ==> list[i] != list[j]
        decreases ns
      {
        var b :| b in ns;
        ns := ns - {b};
        if b in adv && a in adv[b] {
          list := list + [b];
        }
      }
      list := SortIds(list);
      adjacency := adjacency[a := list];
      todo := todo - {a};
    }
  }

  // ---------------------------------------------------------------- breadth-first search

  /** Every path recorded so far is final. */
  ghost predicate AllLeast(adv: Advertised, local: Id, paths: map<Id, Path>) {
    forall x :: LeastAt(adv, local, paths, x)
  }

  ghost predicate LeastAt(adv: Advertised, local: Id, paths: map<Id, Path>, x: Id) {
    x in paths ==> LeastWalk(adv, local, x, paths[x])
  }

  /** The neighbours of finished nodes have all been found. */
  ghost predicate Closed(adv: Advertised, done: set<Id>, paths: map<Id, Path>) {
    forall c, y :: ClosedAt(adv, done, paths, c, y)
  }

  ghost predicate ClosedAt(adv: Advertised, done: set<Id>, paths: map<Id, Path>, c: Id, y: Id) {
    c in done && Adjacent(adv, c, y) ==> y in paths
  }

  /** The queue holds nodes in the order of their paths. */
  ghost predicate InOrder(paths: map<Id, Path>, queue: seq<Id>) {
    && (forall x :: x in queue ==> x in paths)
    && forall i, j :: 0 <= i < j < |queue| ==> Before(paths[queue[i]], paths[queue[j]])
  }

  ghost predicate AllBefore(paths: map<Id, Path>, xs: set<Id>, p: Path) {
    forall c :: c in xs ==> c in paths && Before(paths[c], p)
  }

  /** `y` was found while expanding some node of `parents`. */
  ghost predicate FoundFrom(paths: map<Id, Path>, parents: set<Id>, y: Id) {
    exists c :: c in parents && c in paths && y in paths && paths[y] == paths[c] + [y]
  }

  ghost predicate AllFound(paths: map<Id, Path>, parents: set<Id>, local: Id) {
    forall y :: FoundAt(paths, parents, local, y)
  }

  ghost predicate FoundAt(paths: map<Id, Path>, parents: set<Id>, local: Id, y: Id) {
    y in paths && y != local ==> FoundFrom(paths, parents, y)
  }

  /** Found nodes are finished or waiting, never both. */
  ghost predicate Partition(paths: map<Id, Path>, done: set<Id>, queue: seq<Id>) {
    && (forall x :: x in paths <==> x in done || x in queue)
    && (forall x :: x in queue ==> x !in done)
  }

  /** The path given to a newly found node is the least of all. `expanded` are the nodes
      finished before `current`, whose own neighbours are still being looked at. */
  lemma NewPathIsLeast(adv: Advertised, local: Id, paths: map<Id, Path>, expanded: set<Id>, current: Id, next: Id)
    requires local in paths && current in paths && current !in expanded && next !in paths
    requires expanded <= paths.Keys && Adjacent(adv, current, next)
    requires AllLeast(adv, local, paths) && Closed(adv, expanded, paths)
    requires forall x :: x in paths && x !in expanded ==> AtMost(paths[current], paths[x])
    ensures LeastWalk(adv, local, next, paths[current] + [next])
  {
    assert LeastAt(adv, local, paths, current);
    WalkExtend(adv, paths[current], next);
    forall q | WalkBetween(adv, local, next, q)
      ensures AtMost(paths[current] + [next], q)
    {
      var i := 0;
      while q[i] in expanded
        invariant i < |q| && q[i] in paths && q[i] != next
        decreases |q| - i
      {
        assert Adjacent(adv, q[i], q[i + 1]);
        assert ClosedAt(adv, expanded, paths, q[i], q[i + 1]);
        i := i + 1;
      }
      WalkPrefix(adv, q, i + 1);
      assert LeastAt(adv, local, paths, q[i]);
      BeforeIsTransitive(paths[current], paths[q[i]], q[..i + 1]);
      BeforeIsTransitive(paths[current], q[..i + 1], q[..|q| - 1]);
      assert q == q[..|q| - 1] + [next];
      if paths[current] != q[..|q| - 1] {
        ExtendKeepsBefore(paths[current], q[..|q| - 1], next, next);
      }
    }
  }

  lemma LocalPath(adv: Advertised, local: Id, p: Path)
    requires LeastWalk(adv, local, local, p)
    ensures |p| == 1
  {
    assert WalkBetween(adv, local, local, [local]);
    assert AtMost(p, [local]);
  }

  lemma ExtendIsInjective(p: Path, q: Path, x: Id)
    requires p != q
    ensures p + [x] != q + [x]
  {
    assert (p + [x])[..|p|] == p && (q + [x])[..|q|] == q;
  }

  /** A path found while expanding `current` comes after every path still waiting: the others
      were found from earlier nodes, or from `current` through a smaller neighbour. */
  lemma NewPathIsLast(adv: Advertised, local: Id, paths: map<Id, Path>,
                      done: set<Id>, current: Id, y: Id, next: Id)
    requires AllLeast(adv, local, paths) && local in paths && current in paths && y in paths
    requires AllFound(paths, done + {current}, local)
    requires AllBefore(paths, done, paths[current])
    requires paths[y] == paths[current] + [y] ==> y < next
    ensures Before(paths[y], paths[current] + [next])
  {
    assert FoundAt(paths, done + {current}, local, y);
    if y != local {
      var c :| c in done + {current} && c in paths && paths[y] == paths[c] + [y];
      if c == current {
        ExtendBySmaller(paths[current], y, next);
      } else {
        ExtendKeepsBefore(paths[c], paths[current], y, next);
      }
    } else {
      assert LeastAt(adv, local, paths, local) && LeastAt(adv, local, paths, current);
      LocalPath(adv, local, paths[local]);
    }
  }

  /** What holds while the neighbours of `current` are being looked at; `looked` of them have been. */
  ghost predicate Expanding(adv: Advertised, local: Id, paths: map<Id, Path>, done: set<Id>,
                            current: Id, queue: seq<Id>, looked: seq<Id>)
  {
    && local in paths && current in paths && current !in done && current !in queue
    && Partition(paths, done + {current}, queue)
    && AllLeast(adv, local, paths)
    && Closed(adv, done, paths)
    && InOrder(paths, [current] + queue)
    && AllBefore(paths, done, paths[current])
    && AllFound(paths, done + {current}, local)
    && (forall y :: y in looked ==> y in paths)
    && (forall y :: y in paths && paths[y] == paths[current] + [y] ==> y in looked)
  }

  lemma CurrentIsFirst(adv: Advertised, local: Id, paths: map<Id, Path>, done: set<Id>,
                       current: Id, queue: seq<Id>, looked: seq<Id>, x: Id)
    requires Expanding(adv, local, paths, done, current, queue, looked)
    requires x in paths && x !in done
    ensures AtMost(paths[current], paths[x])
  {
    if x != current {
      var i :| 0 <= i < |queue| && queue[i] == x;
      var q := [current] + queue;
      assert Before(paths[q[0]], paths[q[i + 1]]);
    }
  }

  lemma AddedInOrder(paths: map<Id, Path>, queue: seq<Id>, next: Id, path: Path)
    requires InOrder(paths, queue) && next !in paths
    requires forall y :: y in queue ==> Before(paths[y], path)
    ensures InOrder(paths[next := path], queue + [next])
  {
  }

  lemma AddedFound(paths: map<Id, Path>, parents: set<Id>, local: Id, current: Id, next: Id)
    requires AllFound(paths, parents, local) && current in parents && current in paths && next !in paths
    ensures AllFound(paths[next := paths[current] + [next]], parents, local)
  {
    var after := paths[next := paths[current] + [next]];
    forall y: Id ensures FoundAt(after, parents, local, y) {
      assert FoundAt(paths, parents, local, y);
      if y == next {
        assert current in parents && current in after && after[y] == after[current] + [y];
      } else if y in after && y != local {
        var c :| c in parents && c in paths && paths[y] == paths[c] + [y];
        assert c in parents && c in after && after[y] == after[c] + [y];
      }
    }
  }

  lemma StepOrder(adv: Advertised, local: Id, paths: map<Id, Path>, done: set<Id>,
                  current: Id, queue: seq<Id>, looked: seq<Id>, next: Id)
    requires Expanding(adv, local, paths, done, current, queue, looked)
    requires next !in paths
    requires forall y :: y in looked ==> y < next
    ensures InOrder(paths[next := paths[current] + [next]], [current] + (queue + [next]))
  {
    forall y | y in [current] + queue ensures Before(paths[y], paths[current] + [next]) {
      NewPathIsLast(adv, local, paths, done, current, y, next);
    }
    assert [current] + (queue + [next]) == ([current] + queue) + [next];
    AddedInOrder(paths, [current] + queue, next, paths[current] + [next]);
  }

  lemma StepLeast(adv: Advertised, local: Id, paths: map<Id, Path>, done: set<Id>,
                  current: Id, queue: seq<Id>, looked: seq<Id>, next: Id)
    requires Expanding(adv, local, paths, done, current, queue, looked)
    requires Adjacent(adv, current, next) && next !in paths
    ensures AllLeast(adv, local, paths[next := paths[current] + [next]])
    ensures Closed(adv, done, paths[next := paths[current] + [next]])
  {
    forall x | x in paths && x !in done ensures AtMost(paths[current], paths[x]) {
      CurrentIsFirst(adv, local, paths, done, current, queue, looked, x);
    }
    NewPathIsLeast(adv, local, paths, done, current, next);
    var after := paths[next := paths[current] + [next]];
    forall x ensures LeastAt(adv, local, after, x) { assert LeastAt(adv, local, paths, x); }
    forall c, y ensures ClosedAt(adv, done, after, c, y) { assert ClosedAt(adv, done, paths, c, y); }
  }

  lemma StepLooked(paths: map<Id, Path>, current: Id, looked: seq<Id>, next: Id, after: map<Id, Path>)
    requires current in paths && next !in paths
    requires forall y :: y in looked ==> y in paths
    requires forall y :: y in paths && paths[y] == paths[current] + [y] ==> y in looked
    requires after == paths[next := paths[current] + [next]]
    ensures forall y :: y in looked + [next] ==> y in after
    ensures forall y :: y in after && after[y] == after[current] + [y] ==> y in looked + [next]
  {
  }

  lemma StepPartition(paths: map<Id, Path>, done: set<Id>, queue: seq<Id>, next: Id, path: Path)
    requires Partition(paths, done, queue) && next !in paths
    ensures Partition(paths[next := path], done, queue + [next])
  {
  }

  lemma ExpandStep(adv: Advertised, local: Id, paths: map<Id, Path>, done: set<Id>,
                   current: Id, queue: seq<Id>, looked: seq<Id>, next: Id)
    requires Expanding(adv, local, paths, done, current, queue, looked)
    requires Adjacent(adv, current, next) && next !in paths
    requires forall y :: y in looked ==> y < next
    ensures Expanding(adv, local, paths[next := paths[current] + [next]], done, current, queue + [next], looked + [next])
  {
    StepOrder(adv, local, paths, done, current, queue, looked, next);
    StepLeast(adv, local, paths, done, current, queue, looked, next);
    StepLooked(paths, current, looked, next, paths[next := paths[current] + [next]]);
    StepPartition(paths, done + {current}, queue, next, paths[current] + [next]);
    AddedFound(paths, done + {current}, local, current, next);
  }

  /** What holds between two turns of the outer loop. */
  ghost predicate Searching(adv: Advertised, local: Id, paths: map<Id, Path>, done: set<Id>, queue: seq<Id>) {
    && local in paths
    && Partition(paths, done, queue)
    && AllLeast(adv, local, paths)
    && Closed(adv, done, paths)
    && InOrder(paths, queue)
    && (forall y :: y in queue ==> AllBefore(paths, done, paths[y]))
    && AllFound(paths, done, local)
  }

  lemma OrderedIsDistinct(paths: map<Id, Path>, queue: seq<Id>)
    requires InOrder(paths, queue) && |queue| > 0
    ensures queue[0] !in queue[1..]
  {
    if queue[0] in queue[1..] {
      var i :| 0 <= i < |queue[1..]| && queue[1..][i] == queue[0];
      BeforeIsAsymmetric(paths[queue[0]], paths[queue[i + 1]]);
    }
  }

  lemma StartExpanding(adv: Advertised, local: Id, paths: map<Id, Path>, done: set<Id>, queue: seq<Id>)
    requires Searching(adv, local, paths, done, queue) && |queue| > 0
    ensures Expanding(adv, local, paths, done, queue[0], queue[1..], [])
  {
    var current := queue[0];
    OrderedIsDistinct(paths, queue);
    assert queue == [current] + queue[1..];
    assert current in queue;
    forall y | y in paths ensures paths[y] != paths[current] + [y] {
      assert LeastAt(adv, local, paths, y) && LeastAt(adv, local, paths, current) && FoundAt(paths, done, local, y);
      if y == local {
        LocalPath(adv, local, paths[y]);
      } else {
        var c :| c in done && c in paths && paths[y] == paths[c] + [y];
        BeforeIsAsymmetric(paths[c], paths[current]);
        ExtendIsInjective(paths[c], paths[current], y);
      }
    }
    assert AllFound(paths, done + {current}, local) by {
      forall y ensures FoundAt(paths, done + {current}, local, y) {
        assert FoundAt(paths, done, local, y);
        if y in paths && y != local {
          var c :| c in done && c in paths && paths[y] == paths[c] + [y];
          assert c in done + {current};
        }
      }
    }
  }

  lemma FinishExpanding(adv: Advertised, local: Id, paths: map<Id, Path>, done: set<Id>,
                        current: Id, queue: seq<Id>, looked: seq<Id>)
    requires Expanding(adv, local, paths, done, current, queue, looked)
    requires forall y :: Adjacent(adv, current, y) ==> y in looked
    ensures Searching(adv, local, paths, done + {current}, queue)
  {
    assert InOrder(paths, queue) by {
      DropFirst(paths, current, queue);
    }
    forall c, y ensures ClosedAt(adv, done + {current}, paths, c, y) {
      assert ClosedAt(adv, done, paths, c, y);
    }
    forall y | y in queue ensures AllBefore(paths, done + {current}, paths[y]) {
      WaitingIsLater(paths, done, current, queue, y);
    }
  }

  lemma DropFirst(paths: map<Id, Path>, current: Id, queue: seq<Id>)
    requires InOrder(paths, [current] + queue)
    ensures InOrder(paths, queue)
  {
    var q := [current] + queue;
    assert forall i :: 0 <= i < |queue| ==> queue[i] == q[i + 1];
  }

  lemma WaitingIsLater(paths: map<Id, Path>, done: set<Id>, current: Id, queue: seq<Id>, y: Id)
    requires InOrder(paths, [current] + queue) && current in paths && y in queue && y in paths
    requires AllBefore(paths, done, paths[current])
    ensures AllBefore(paths, done + {current}, paths[y])
  {
    var q := [current] + queue;
    var i :| 0 <= i < |queue| && queue[i] == y;
    assert Before(paths[q[0]], paths[q[i + 1]]);
    forall c | c in done ensures Before(paths[c], paths[y]) {
      BeforeIsTransitive(paths[c], paths[current], paths[y]);
    }
  }

  lemma AddRoute(local: Id, paths: map<Id, Path>, routes: map<Id, Route>, next: Id, path: Path)
    requires RoutesOfPaths(local, paths, routes) && next !in paths && next != local
    requires |path| >= 2 && path[|path| - 1] == next
    ensures RoutesOfPaths(local, paths[next := path], routes[next := Route(next, path[1], |path| - 1, path)])
  {
  }

  /** The inner loop: look at every neighbour of `current` in identifier order. */
  method Expand(local: Id, ghost adv: Advertised, adjacency: map<Id, seq<Id>>, current: Id,
                routes0: map<Id, Route>, paths0: map<Id, Path>, queue0: seq<Id>, ghost done: set<Id>)
    returns (routes: map<Id, Route>, paths: map<Id, Path>, queue: seq<Id>)
    requires SortedAdjacency(adv, adjacency)
    requires Expanding(adv, local, paths0, done, current, queue0, [])
    requires RoutesOfPaths(local, paths0, routes0)
    ensures Searching(adv, local, paths, done + {current}, queue)
    ensures RoutesOfPaths(local, paths, routes)
  {
    routes, paths, queue := routes0, paths0, queue0;
    var list := if current in adjacency then adjacency[current] else [];
    for i := 0 to |list|
      invariant Expanding(adv, local, paths, done, current, queue, list[..i])
      invariant RoutesOfPaths(local, paths, routes)
    {
      var next := list[i];
      assert next in list;
      assert list[..i + 1] == list[..i] + [next];
      if next !in paths {
        var path := paths[current] + [next];
        ExpandStep(adv, local, paths, done, current, queue, list[..i], next);
        assert LeastAt(adv, local, paths, current);
        if next != local {
          AddRoute(local, paths, routes, next, path);
          routes := routes[next := Route(next, path[1], |path| - 1, path)];
        }
        paths := paths[next := path];
        queue := queue + [next];
      }
    }
    assert list[..|list|] == list;
    FinishExpanding(adv, local, paths, done, current, queue, list);
  }

  /** The route table lists exactly the paths found so far, other than the trivial one. */
  ghost predicate RoutesOfPaths(local: Id, paths: map<Id, Path>, routes: map<Id, Route>) {
    && (forall y :: y in routes <==> y in paths && y != local)
    && (forall y :: y in routes ==> |paths[y]| >= 2 && routes[y] == RouteOf(paths[y]))
  }

  lemma {:induction false} ClosedSetHoldsWalks(adv: Advertised, local: Id, closed: set<Id>, p: Path)
    requires local in closed
    requires forall c, y :: c in closed && Adjacent(adv, c, y) ==> y in closed
    requires Walk(adv, p) && p[0] == local
    ensures p[|p| - 1] in closed
    decreases |p|
  {
    if |p| > 1 {
      WalkPrefix(adv, p, |p| - 1);
      ClosedSetHoldsWalks(adv, local, closed, p[..|p| - 1]);
      assert Adjacent(adv, p[|p| - 2], p[|p| - 1]);
    }
  }

  lemma FinishedSearch(local: Id, adv: Advertised, paths: map<Id, Path>, done: set<Id>, routes: map<Id, Route>)
    requires Searching(adv, local, paths, done, []) && RoutesOfPaths(local, paths, routes)
    ensures RoutesFor(local, adv, routes)
  {
    forall d ensures d in routes <==> d != local && Reachable(adv, local, d) {
      assert LeastAt(adv, local, paths, d);
      if d in routes {
        assert WalkBetween(adv, local, d, paths[d]);
      }
      if d != local && Reachable(adv, local, d) {
        var p :| WalkBetween(adv, local, d, p);
        forall c, y | c in done && Adjacent(adv, c, y) ensures y in done { assert ClosedAt(adv, done, paths, c, y); }
        ClosedSetHoldsWalks(adv, local, done, p);
      }
    }
    forall d | d in routes ensures LeastWalk(adv, local, d, routes[d].path) {
      assert LeastAt(adv, local, paths, d);
    }
  }

  method Compute(local: Id, lsas: map<Id, Neighbors>) returns (routes: map<Id, Route>)
    ensures RoutesFor(local, AdvertisedOf(lsas), routes)
  {
    var adv := CollectAdvertised(lsas);
    var adjacency := BuildAdjacency(adv);
    routes := map[];
    var queue := [local];
    var paths: map<Id, Path> := map[local := [local]];
    ghost var done: set<Id> := {};
    assert WalkBetween(adv, local, local, [local]);
    while |queue| > 0
      invariant Searching(adv, local, paths, done, queue)
      invariant RoutesOfPaths(local, paths, routes)
      invariant done <= adv.Keys + {local}
      decreases (adv.Keys + {local}) - done
    {
      var current := queue[0];
      StartExpanding(adv, local, paths, done, queue);
      assert LeastAt(adv, local, paths, current);
      FoundIsKnown(adv, local, current, paths[current]);
      routes, paths, queue := Expand(local, adv, adjacency, current, routes, paths, queue[1..], done);
      done := done + {current};
    }
    FinishedSearch(local, adv, paths, done, routes);
  }

  lemma FoundIsKnown(adv: Advertised, local: Id, x: Id, p: Path)
    requires WalkBetween(adv, local, x, p)
    ensures x in adv.Keys + {local}
  {
    if |p| > 1 {
      assert Adjacent(adv, p[|p| - 2], p[|p| - 1]);
    }
  }
}
