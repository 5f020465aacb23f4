/** A circuit comes to rest: apart from what its users send, only a bounded number of steps can be
    taken, so building ends, with all hops joined or with a refusal. */
module CircuitProgress {
  import opened Common
  import opened NodeId
  import opened Onion
  import opened Circuit
  import opened CircuitInvariant
  import opened CircuitSteps
  import opened CircuitSafety

  /** What every cell on the links `j` and after still has before it: on its way out it may have to
      pass all later links and come back. */
  function Outbound(qs: seq<seq<Cell>>, n: nat, j: nat): nat
    requires |qs| == n && j <= n
    decreases n - j
  {
    if j == n then 0 else |qs[j]| * (2 * n - j) + Outbound(qs, n, j + 1)
  }

  /** On its way back only the links below. */
  function Inbound(qs: seq<seq<Cell>>, n: nat, j: nat): nat
    requires |qs| == n && j <= n
    decreases n - j
  {
    if j == n then 0 else |qs[j]| * (j + 1) + Inbound(qs, n, j + 1)
  }

  /** How many hops the client may still ask for. */
  function HopsToAsk(s: System): nat {
    var asked := |s.client.hops| + (if s.client.pending.Some? then 1 else 0);
    if s.client.failed || asked >= |s.path| then 0 else |s.path| - asked
  }

  /** The work that is left: a round trip for every hop not asked for, and the cells in flight. */
  function Work(s: System): nat
    requires WellShaped(s)
  {
    var n := |s.path|;
    HopsToAsk(s) * (2 * n + 1) + Outbound(s.fwd, n, 0) + Inbound(s.rev, n, 0)
  }

  // ---------------------------------------------------------------- one queue changes

  lemma OneMoreTimes(a: nat, w: nat)
    ensures (a + 1) * w == a * w + w
  {
  }

  lemma {:induction false} OutboundPush(qs: seq<seq<Cell>>, n: nat, j: nat, i: nat, c: Cell)
    requires |qs| == n && j <= n && i < n
    ensures Outbound(Push(qs, i, c), n, j) == Outbound(qs, n, j) + if j <= i then 2 * n - i else 0
    decreases n - j
  {
    if j < n {
      OutboundPush(qs, n, j + 1, i, c);
      OneMoreTimes(|qs[j]|, 2 * n - j);
    }
  }

  lemma OutboundPop(qs: seq<seq<Cell>>, n: nat, i: nat)
    requires |qs| == n && i < n && |qs[i]| > 0
    ensures Outbound(Pop(qs, i), n, 0) + (2 * n - i) == Outbound(qs, n, 0)
  {
    var left := Pop(qs, i);
    OutboundPush(left, n, 0, i, qs[i][0]);
    OutboundSame(Push(left, i, qs[i][0]), qs, n, 0);
  }

  lemma {:induction false} OutboundSame(qs: seq<seq<Cell>>, rs: seq<seq<Cell>>, n: nat, j: nat)
    requires |qs| == |rs| == n && j <= n && forall k :: 0 <= k < n ==> |qs[k]| == |rs[k]|
    ensures Outbound(qs, n, j) == Outbound(rs, n, j)
    decreases n - j
  {
    if j < n {
      OutboundSame(qs, rs, n, j + 1);
    }
  }

  lemma {:induction false} InboundPush(qs: seq<seq<Cell>>, n: nat, j: nat, i: nat, c: Cell)
    requires |qs| == n && j <= n && i < n
    ensures Inbound(Push(qs, i, c), n, j) == Inbound(qs, n, j) + if j <= i then i + 1 else 0
    decreases n - j
  {
    if j < n {
      InboundPush(qs, n, j + 1, i, c);
      OneMoreTimes(|qs[j]|, j + 1);
    }
  }

  lemma InboundPop(qs: seq<seq<Cell>>, n: nat, i: nat)
    requires |qs| == n && i < n && |qs[i]| > 0
    ensures Inbound(Pop(qs, i), n, 0) + (i + 1) == Inbound(qs, n, 0)
  {
    var left := Pop(qs, i);
    InboundPush(left, n, 0, i, qs[i][0]);
    InboundSame(Push(left, i, qs[i][0]), qs, n, 0);
  }

  lemma {:induction false} InboundSame(qs: seq<seq<Cell>>, rs: seq<seq<Cell>>, n: nat, j: nat)
    requires |qs| == |rs| == n && j <= n && forall k :: 0 <= k < n ==> |qs[k]| == |rs[k]|
    ensures Inbound(qs, n, j) == Inbound(rs, n, j)
    decreases n - j
  {
    if j < n {
      InboundSame(qs, rs, n, j + 1);
    }
  }

  // ---------------------------------------------------------------- one step

  /** A step may cost a round trip only if a user takes it. */
  ghost predicate Spends(s: System, step: Step, t: System)
    requires WellShaped(s)
  {
    && WellShaped(t) && t.path == s.path
    && Work(t) + 1 <= Work(s) + if Sends(step) then 2 * |s.path| + 1 else 0
  }

  lemma SendRelaySpends(s: System, cmd: Command)
    requires WellShaped(s)
    ensures var t := SendRelay(s, cmd);
            && WellShaped(t) && t.path == s.path && t.rev == s.rev
            && Outbound(t.fwd, |s.path|, 0) == Outbound(s.fwd, |s.path|, 0) + 2 * |s.path|
            && HopsToAsk(t) == HopsToAsk(s)
  {
    OutboundPush(s.fwd, |s.path|, 0, 0, Relay(Wrap(s.client.hops, 0, cmd)));
  }

  lemma AskingSpends(s: System, step: Step)
    requires WellShaped(s) && Enabled(s, step) && (step.ClientCreate? || step.ClientExtend?)
    ensures Spends(s, step, Apply(s, step))
  {
    var n := |s.path|;
    OneMoreTimes(HopsToAsk(Apply(s, step)), 2 * n + 1);
    match step
    case ClientCreate(priv, nonce) => OutboundPush(s.fwd, n, 0, 0, Create(Pub(priv), nonce));
    case ClientExtend(priv, nonce) => SendRelaySpends(s, Extend(s.path[|s.client.hops|], Pub(priv), nonce));
  }

  lemma ForwardSpends(s: System, i: nat)
    requires WellShaped(s) && Enabled(s, RelayForward(i))
    ensures Spends(s, RelayForward(i), Apply(s, RelayForward(i)))
  {
    var n := |s.path|;
    var inner := Opened(s, i);
    OutboundPop(s.fwd, n, i);
    if s.relays[i].outgoing {
      OutboundPush(Pop(s.fwd, i), n, 0, i + 1, Relay(inner));
    } else if inner.cmd.Extend? {
      OutboundPush(Pop(s.fwd, i), n, 0, i + 1, Create(inner.cmd.pub, inner.cmd.nonce));
    }
  }

  lemma TurnSpends(s: System, step: Step)
    requires WellShaped(s) && Enabled(s, step) && (step.RelayCreate? || step.RelayRefuse?)
    ensures Spends(s, step, Apply(s, step))
  {
    var n := |s.path|;
    OutboundPop(s.fwd, n, step.i);
    InboundPush(s.rev, n, 0, step.i, Apply(s, step).rev[step.i][|s.rev[step.i]|]);
    assert Apply(s, step).rev == Push(s.rev, step.i, Apply(s, step).rev[step.i][|s.rev[step.i]|]);
  }

  lemma BackSpends(s: System, step: Step)
    requires WellShaped(s) && Enabled(s, step) && (step.RelayExtended? || step.RelayReverse?)
    ensures Spends(s, step, Apply(s, step))
  {
    var n := |s.path|;
    var left := Pop(s.rev, step.i + 1);
    var c := Apply(s, step).rev[step.i][|s.rev[step.i]|];
    InboundPop(s.rev, n, step.i + 1);
    InboundPush(left, n, 0, step.i, c);
    assert Apply(s, step).rev == Push(left, step.i, c);
  }

  lemma ReceivingSpends(s: System, step: Step)
    requires WellShaped(s) && Enabled(s, step) && (step.ClientCreated? || step.ClientReceive?)
    ensures Spends(s, step, Apply(s, step))
  {
    InboundPop(s.rev, |s.path|, 0);
    FewerHops(HopsToAsk(Apply(s, step)), HopsToAsk(s), 2 * |s.path| + 1);
  }

  lemma FewerHops(a: nat, b: nat, w: nat)
    ensures a <= b ==> a * w <= b * w
  {
    if a <= b {
      assert b * w == a * w + (b - a) * w;
    }
  }

  lemma UserSpends(s: System, step: Step)
    requires WellShaped(s) && Enabled(s, step) && Sends(step)
    ensures Spends(s, step, Apply(s, step))
  {
    var n := |s.path|;
    match step
    case ClientSend(cmd) => SendRelaySpends(s, cmd);
    case TerminalSend(cmd) =>
      InboundPush(s.rev, n, 0, n - 1, Apply(s, step).rev[n - 1][|s.rev[n - 1]|]);
      assert Apply(s, step).rev == Push(s.rev, n - 1, Apply(s, step).rev[n - 1][|s.rev[n - 1]|]);
  }

  /** Every step of the protocol's own does some of the work that is left. */
  lemma StepSpends(s: System, step: Step)
    requires WellShaped(s) && Enabled(s, step)
    ensures Spends(s, step, Apply(s, step))
  {
    match step
    case RelayForward(i) => ForwardSpends(s, i);
    case RelayCreate(_, _, _) => TurnSpends(s, step);
    case RelayRefuse(_, _) => TurnSpends(s, step);
    case RelayExtended(_) => BackSpends(s, step);
    case RelayReverse(_) => BackSpends(s, step);
    case ClientCreated => ReceivingSpends(s, step);
    case ClientReceive => ReceivingSpends(s, step);
    case ClientSend(_) => UserSpends(s, step);
    case TerminalSend(_) => UserSpends(s, step);
    case _ => AskingSpends(s, step);
  }

  // ---------------------------------------------------------------- whole runs

  function SendCount(steps: seq<Step>): nat {
    if steps == [] then 0 else (if Sends(steps[0]) then 1 else 0) + SendCount(steps[1..])
  }

  lemma {:induction false} RunSpends(s: System, steps: seq<Step>, t: System)
    requires WellShaped(s) && Runs(s, steps, t)
    ensures WellShaped(t) && |steps| + Work(t) <= Work(s) + SendCount(steps) * (2 * |s.path| + 1)
    decreases |steps|
  {
    if steps != [] {
      StepSpends(s, steps[0]);
      RunSpends(Apply(s, steps[0]), steps[1..], t);
      OneMoreTimes(SendCount(steps[1..]), 2 * |s.path| + 1);
    }
  }

  lemma {:induction false} NothingInFlight(qs: seq<seq<Cell>>, n: nat, j: nat)
    requires |qs| == n && j <= n && forall k :: 0 <= k < n ==> qs[k] == []
    ensures Outbound(qs, n, j) == Inbound(qs, n, j) == 0
    decreases n - j
  {
    if j < n {
      NothingInFlight(qs, n, j + 1);
    }
  }

  lemma TimesAdds(a: nat, b: nat, w: nat)
    ensures (a + b) * w == a * w + b * w
  {
  }

  lemma InitialWork(s: System)
    requires Initial(s)
    ensures Work(s) == |s.path| * (2 * |s.path| + 1)
  {
    NothingInFlight(s.fwd, |s.path|, 0);
    NothingInFlight(s.rev, |s.path|, 0);
    assert HopsToAsk(s) == |s.path|;
  }

  /** A run that builds and uses a circuit of `n` hops takes at most `2 * n + 1` steps for each hop
      and for each command a user sends. */
  lemma RunsAreBounded(s: System, steps: seq<Step>, t: System)
    requires Initial(s) && Runs(s, steps, t)
    ensures |steps| <= (|s.path| + SendCount(steps)) * (2 * |s.path| + 1)
  {
    var n := |s.path|;
    RunSpends(s, steps, t);
    InitialWork(s);
    TimesAdds(n, SendCount(steps), 2 * n + 1);
  }

  /** So building ends: a run that cannot go on without its users has joined all hops or has been
      refused one. */
  lemma BuildingEnds(s: System, steps: seq<Step>, t: System)
    requires Initial(s) && Runs(s, steps, t)
    requires WellShaped(t) ==> forall step :: Enabled(t, step) ==> Sends(step)
    ensures |t.client.hops| == |t.path| || t.client.failed
  {
    RunSpends(s, steps, t);
    assert ReachableState(t);
    if |t.client.hops| < |t.path| && !t.client.failed {
      BuildingIsNeverStuck(t);
    }
  }
}
