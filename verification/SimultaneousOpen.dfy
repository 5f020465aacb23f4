/** Two nodes that dial each other end up with several connections and have to keep the same one.
    Each decides alone, when a connection is registered, by who dialled it. */
module SimultaneousOpen {
  import opened NodeId

  /** The connection dialled by the node with the smaller ID is the preferred one. */
  predicate Preferred(self: Id, other: Id, outbound: bool) { outbound == (self < other) }

  /** A new connection takes the place of a registered one only if it is preferred and that is not. */
  predicate Replaces(self: Id, other: Id, newOutbound: bool, oldOutbound: bool) {
    Preferred(self, other, newOutbound) && !Preferred(self, other, oldOutbound)
  }

  /** One node's end of one connection. A `Pending` end has said hello but is not registered yet; a
      `Replaced` one has lost its place in the table and is about to be closed. */
  datatype End = Pending | Live | Replaced | Gone

  datatype Current = Nobody | Peer(conn: nat)

  /** One node: the connection its table holds, and its end of every connection. */
  datatype Side = Side(current: Current, ends: seq<End>)

  /** The node with the smaller ID and the one with the larger. */
  datatype Pair = Pair(lo: Side, hi: Side)

  /** Two nodes, and for each connection whether the smaller one dialled it. */
  datatype Setting = Setting(small: Id, large: Id, dialed: seq<bool>)

  predicate Proper(d: Setting) { d.small < d.large }

  function At(w: Pair, lo: bool): Side { if lo then w.lo else w.hi }

  function With(w: Pair, lo: bool, s: Side): Pair { if lo then w.(lo := s) else w.(hi := s) }

  predicate Sized(d: Setting, w: Pair) { |w.lo.ends| == |d.dialed| && |w.hi.ends| == |d.dialed| }

  function Start(d: Setting): Pair {
    var s := Side(Nobody, seq(|d.dialed|, _ => Pending));
    Pair(s, s)
  }

  /** Whether a node takes connection `c` over connection `k`; both nodes see the dialler differently. */
  predicate Takes(d: Setting, lo: bool, c: nat, k: nat)
    requires c < |d.dialed| && k < |d.dialed|
  {
    if lo then Replaces(d.small, d.large, d.dialed[c], d.dialed[k])
    else Replaces(d.large, d.small, !d.dialed[c], !d.dialed[k])
  }

  /** Both nodes prefer the same connections. */
  lemma NodesAgree(d: Setting, lo: bool, c: nat, k: nat)
    requires Proper(d) && c < |d.dialed| && k < |d.dialed|
    ensures Takes(d, lo, c, k) <==> d.dialed[c] && !d.dialed[k]
  {
  }

  function Register(d: Setting, lo: bool, s: Side, c: nat): Side
    requires c < |d.dialed| == |s.ends|
  {
    if s.current.Peer? && s.current.conn < |s.ends| then
      var k := s.current.conn;
      if Takes(d, lo, c, k) then Side(Peer(c), s.ends[k := Replaced][c := Live])
      else s.(ends := s.ends[c := Gone])
    else Side(Peer(c), s.ends[c := Live])
  }

  /** The connection is closed here; the table forgets it if it held it. */
  function Drop(s: Side, c: nat): Side
    requires c < |s.ends|
  {
    Side(if s.current == Peer(c) then Nobody else s.current, s.ends[c := Gone])
  }

  datatype Step =
    | Registration(lo: bool, conn: nat)
    | CloseReplaced(lo: bool, conn: nat)
    | Notice(lo: bool, conn: nat)

  /** `Notice` is one end learning, in the handshake or later, that the other has closed. */
  predicate Enabled(d: Setting, w: Pair, s: Step)
    requires Sized(d, w)
  {
    s.conn < |d.dialed| &&
    match s
    case Registration(lo, c) => At(w, lo).ends[c] == Pending
    case CloseReplaced(lo, c) => At(w, lo).ends[c] == Replaced
    case Notice(lo, c) => At(w, lo).ends[c] != Gone && At(w, !lo).ends[c] == Gone
  }

  function Apply(d: Setting, w: Pair, s: Step): (v: Pair)
    requires Sized(d, w) && Enabled(d, w, s)
    ensures Sized(d, v)
  {
    if s.Registration? then With(w, s.lo, Register(d, s.lo, At(w, s.lo), s.conn))
    else With(w, s.lo, Drop(At(w, s.lo), s.conn))
  }

  ghost predicate Reachable(d: Setting, w: Pair, steps: seq<Step>)
    decreases |steps|
  {
    if steps == [] then w == Start(d)
    else
      var last := steps[|steps| - 1];
      exists v :: Reachable(d, v, steps[..|steps| - 1]) && Sized(d, v) && Enabled(d, v, last) && w == Apply(d, v, last)
  }

  ghost predicate Reached(d: Setting, w: Pair) { exists steps :: Reachable(d, w, steps) }

  /** Nothing is left to do: the schedule has run its course. */
  ghost predicate Quiet(d: Setting, w: Pair) {
    Sized(d, w) && forall s :: !Enabled(d, w, s)
  }

  // ---------------------------------------------------------------- invariant

  ghost predicate TableOk(s: Side) {
    && (s.current.Peer? ==> s.current.conn < |s.ends|)
    && (forall c: nat :: c < |s.ends| ==> (s.ends[c] == Live <==> s.current == Peer(c)))
  }

  /** `p` is the one connection that the smaller node dialled, or the only connection there is. */
  ghost predicate Favoured(d: Setting, p: nat) {
    && p < |d.dialed|
    && (|d.dialed| == 1 || (d.dialed[p] && forall c :: 0 <= c < |d.dialed| && c != p ==> !d.dialed[c]))
  }

  ghost predicate Keeps(s: Side, p: nat) {
    p < |s.ends| && (s.ends[p] == Pending || s.ends[p] == Live)
  }

  ghost predicate Inv(d: Setting, w: Pair, p: nat) {
    Sized(d, w) && TableOk(w.lo) && TableOk(w.hi) && Keeps(w.lo, p) && Keeps(w.hi, p)
  }

  lemma RegisterKeeps(d: Setting, lo: bool, s: Side, c: nat, p: nat)
    requires Proper(d) && Favoured(d, p) && c < |d.dialed| == |s.ends| && s.ends[c] == Pending
    requires TableOk(s) && Keeps(s, p)
    ensures TableOk(Register(d, lo, s, c)) && Keeps(Register(d, lo, s, c), p)
  {
    if s.current.Peer? {
      NodesAgree(d, lo, c, s.current.conn);
    }
  }

  lemma StepKeeps(d: Setting, w: Pair, s: Step, p: nat)
    requires Proper(d) && Favoured(d, p) && Inv(d, w, p) && Enabled(d, w, s)
    ensures Inv(d, Apply(d, w, s), p)
  {
    if s.Registration? {
      RegisterKeeps(d, s.lo, At(w, s.lo), s.conn, p);
    }
  }

  lemma {:induction false} ReachableKeeps(d: Setting, w: Pair, steps: seq<Step>, p: nat)
    requires Proper(d) && Favoured(d, p) && Reachable(d, w, steps)
    ensures Inv(d, w, p)
    decreases |steps|
  {
    if steps != [] {
      var last := steps[|steps| - 1];
      var v :| Reachable(d, v, steps[..|steps| - 1]) && Sized(d, v) && Enabled(d, v, last) && w == Apply(d, v, last);
      ReachableKeeps(d, v, steps[..|steps| - 1], p);
      StepKeeps(d, v, last, p);
    }
  }

  // ---------------------------------------------------------------- results

  /** In every interleaving the favoured connection is never closed at either end, and when nothing
      is left to do both tables hold it and every other connection is closed at both ends. */
  lemma FavouredSurvives(d: Setting, w: Pair, p: nat)
    requires Proper(d) && Favoured(d, p) && Reached(d, w)
    ensures Keeps(w.lo, p) && Keeps(w.hi, p)
    ensures Quiet(d, w) ==> w.lo.current == Peer(p) && w.hi.current == Peer(p)
    ensures Quiet(d, w) ==> forall c :: 0 <= c < |d.dialed| && c != p ==> w.lo.ends[c] == Gone && w.hi.ends[c] == Gone
  {
    var steps :| Reachable(d, w, steps);
    ReachableKeeps(d, w, steps, p);
    if Quiet(d, w) {
      forall lo: bool, c: nat | c < |d.dialed| ensures At(w, lo).ends[c] == Live || At(w, lo).ends[c] == Gone {
        assert !Enabled(d, w, Registration(lo, c)) && !Enabled(d, w, CloseReplaced(lo, c));
      }
      assert At(w, true).ends[p] == Live && At(w, false).ends[p] == Live;
      forall c: nat | c < |d.dialed| && c != p ensures w.lo.ends[c] == Gone && w.hi.ends[c] == Gone {
        assert At(w, true).ends[c] != Live && At(w, false).ends[c] != Live;
      }
    }
  }

  // ---------------------------------------------------------------- it comes to an end

  function Rank(e: End): nat {
    match e case Pending => 3 case Live => 2 case Replaced => 1 case Gone => 0
  }

  function Work(ends: seq<End>): nat { if ends == [] then 0 else Rank(ends[0]) + Work(ends[1..]) }

  lemma {:induction false} WorkOfUpdate(ends: seq<End>, c: nat, e: End)
    requires c < |ends|
    ensures Work(ends[c := e]) == Work(ends) - Rank(ends[c]) + Rank(e)
  {
    if c > 0 {
      assert ends[c := e][1..] == ends[1..][c - 1 := e];
      WorkOfUpdate(ends[1..], c - 1, e);
    } else {
      assert ends[c := e][1..] == ends[1..];
    }
  }

  lemma StepShrinks(d: Setting, w: Pair, s: Step)
    requires Sized(d, w) && TableOk(w.lo) && TableOk(w.hi) && Enabled(d, w, s)
    ensures var v := Apply(d, w, s); Work(v.lo.ends) + Work(v.hi.ends) < Work(w.lo.ends) + Work(w.hi.ends)
  {
    var side := At(w, s.lo);
    if s.Registration? && side.current.Peer? {
      var k := side.current.conn;
      assert side.ends[k] == Live;
      WorkOfUpdate(side.ends, k, Replaced);
      WorkOfUpdate(side.ends[k := Replaced], s.conn, Live);
    }
    WorkOfUpdate(side.ends, s.conn, Live);
    WorkOfUpdate(side.ends, s.conn, Gone);
  }

  lemma {:induction false} WorkAtStart(n: nat)
    ensures Work(seq(n, _ => Pending)) == 3 * n
  {
    if n > 0 {
      assert seq(n, _ => Pending)[1..] == seq(n - 1, _ => Pending);
      WorkAtStart(n - 1);
    }
  }

  lemma StepKeepsTables(d: Setting, w: Pair, s: Step)
    requires Sized(d, w) && TableOk(w.lo) && TableOk(w.hi) && Enabled(d, w, s)
    ensures TableOk(Apply(d, w, s).lo) && TableOk(Apply(d, w, s).hi)
  {
  }

  lemma {:induction false} TablesStayOk(d: Setting, w: Pair, steps: seq<Step>)
    requires Reachable(d, w, steps)
    ensures Sized(d, w) && TableOk(w.lo) && TableOk(w.hi)
    ensures |steps| + Work(w.lo.ends) + Work(w.hi.ends) <= 6 * |d.dialed|
    decreases |steps|
  {
    if steps == [] {
      WorkAtStart(|d.dialed|);
    } else {
      var last := steps[|steps| - 1];
      var v :| Reachable(d, v, steps[..|steps| - 1]) && Sized(d, v) && Enabled(d, v, last) && w == Apply(d, v, last);
      TablesStayOk(d, v, steps[..|steps| - 1]);
      StepKeepsTables(d, v, last);
      StepShrinks(d, v, last);
    }
  }

  /** However they are interleaved, six steps a connection are all there can be. */
  lemma ScheduleIsBounded(d: Setting, w: Pair, steps: seq<Step>)
    requires Reachable(d, w, steps)
    ensures |steps| <= 6 * |d.dialed|
  {
    TablesStayOk(d, w, steps);
  }

  // ---------------------------------------------------------------- exactly when it works

  /** Whatever the schedule, the nodes end with one and the same connection. */
  ghost predicate AlwaysAgree(d: Setting) {
    forall w :: Reached(d, w) && Quiet(d, w) ==> w.lo.current.Peer? && w.lo.current == w.hi.current
  }

  /** Two connections dialled by the smaller node can kill each other: each node registers another
      one first and refuses the rest. So can any two dialled by the larger one, with no other. */
  lemma AgreeExactlyWhenFavoured(d: Setting)
    requires Proper(d)
    ensures AlwaysAgree(d) <==> exists p :: Favoured(d, p)
  {
    if p :| Favoured(d, p) {
      forall w | Reached(d, w) && Quiet(d, w) ensures w.lo.current.Peer? && w.lo.current == w.hi.current {
        FavouredSurvives(d, w, p);
      }
    } else if |d.dialed| == 0 {
      assert Reachable(d, Start(d), []);
      assert Quiet(d, Start(d));
    } else {
      Rivals(d);
      var a: nat, b: nat :| a != b && Firm(d, a) && Firm(d, b);
      BothDie(d, a, b);
    }
  }

  /** Connections that nothing replaces, once they are registered. */
  ghost predicate Firm(d: Setting, k: nat) {
    k < |d.dialed| && forall lo: bool, c: nat :: c < |d.dialed| ==> !Takes(d, lo, c, k)
  }

  lemma Rivals(d: Setting)
    requires Proper(d) && |d.dialed| > 0 && !exists p :: Favoured(d, p)
    ensures exists a: nat, b: nat :: a != b && Firm(d, a) && Firm(d, b)
  {
    var a: nat, b: nat := 0, 1;
    assert !Favoured(d, 0);
    if p: nat :| p < |d.dialed| && d.dialed[p] {
      assert !Favoured(d, p);
      var q: nat :| q < |d.dialed| && q != p && d.dialed[q];
      a, b := p, q;
    }
    forall lo: bool, c: nat | c < |d.dialed| ensures !Takes(d, lo, c, a) && !Takes(d, lo, c, b) {
      NodesAgree(d, lo, c, a);
      NodesAgree(d, lo, c, b);
    }
    assert Firm(d, a) && Firm(d, b);
  }

  lemma Extend(d: Setting, w: Pair, s: Step)
    requires Reached(d, w) && Sized(d, w) && Enabled(d, w, s)
    ensures Reached(d, Apply(d, w, s))
  {
    var steps :| Reachable(d, w, steps);
    var more := steps + [s];
    assert more[|more| - 1] == s && more[..|more| - 1] == steps;
    assert Reachable(d, Apply(d, w, s), more);
  }

  /** `k` is registered, the connections below `i` are refused, the others wait. */
  ghost predicate Refusing(s: Side, k: nat, i: nat) {
    && k < |s.ends| && s.current == Peer(k) && s.ends[k] == Live
    && forall c: nat :: c < |s.ends| && c != k ==> s.ends[c] == if c < i then Gone else Pending
  }

  /** Reached, and on one side everything but `k` is refused while the other side is still `other`. */
  ghost const REFUSED: (Setting, Pair, bool, nat, Side) -> bool :=
    (d: Setting, v: Pair, lo: bool, k: nat, other: Side) =>
      Reached(d, v) && Sized(d, v) && Refusing(At(v, lo), k, |d.dialed|) && At(v, !lo) == other

  lemma {:induction false} RefuseAll(d: Setting, w: Pair, lo: bool, k: nat, i: nat) returns (v: Pair)
    requires Reached(d, w) && Sized(d, w) && Firm(d, k) && i <= |d.dialed| && Refusing(At(w, lo), k, i)
    ensures REFUSED(d, v, lo, k, At(w, !lo))
    decreases |d.dialed| - i
  {
    if i == |d.dialed| {
      return w;
    }
    v := w;
    if i != k {
      Extend(d, w, Registration(lo, i));
      v := Apply(d, w, Registration(lo, i));
      assert !Takes(d, lo, i, k);
    }
    v := RefuseAll(d, v, lo, k, i + 1);
  }

  lemma RegisterFirst(d: Setting, w: Pair, lo: bool, k: nat) returns (v: Pair)
    requires Reached(d, w) && Sized(d, w) && Firm(d, k) && At(w, lo) == Start(d).lo
    ensures REFUSED(d, v, lo, k, At(w, !lo))
  {
    Extend(d, w, Registration(lo, k));
    v := Apply(d, w, Registration(lo, k));
    v := RefuseAll(d, v, lo, k, 0);
  }

  lemma BothDie(d: Setting, a: nat, b: nat)
    requires Proper(d) && a != b && Firm(d, a) && Firm(d, b)
    ensures exists w :: Reached(d, w) && Quiet(d, w) && w.lo.current == Nobody && w.hi.current == Nobody
  {
    var w := Start(d);
    assert Reachable(d, w, []);
    w := RegisterFirst(d, w, true, a);
    w := RegisterFirst(d, w, false, b);
    Extend(d, w, Notice(true, a));
    w := Apply(d, w, Notice(true, a));
    Extend(d, w, Notice(false, b));
    w := Apply(d, w, Notice(false, b));
    forall s ensures !Enabled(d, w, s) {
      if s.conn < |d.dialed| {
        assert w.lo.ends[s.conn] == Gone && w.hi.ends[s.conn] == Gone;
      }
    }
    assert Quiet(d, w);
  }
}
