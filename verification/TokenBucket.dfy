/** The beacon's rate limit: one token bucket per host, and a table that forgets idle hosts when it
    grows. Forgetting refills a bucket. That goes unnoticed exactly if an idle bucket would have been
    full anyway. Times are seconds. */
module TokenBucket {
  import opened Common

  type Host = string

  datatype Bucket = Bucket(tokens: real, last: real)

  type Table = map<Host, Bucket>

  datatype Limits = Limits(rate: real, burst: nat)

  const MAX_TABLE := 4096
  const IDLE_SECONDS := 600.0

  /** What the setter lets through. */
  predicate Valid(l: Limits) { l.rate > 0.0 && l.burst > 0 }

  function Min(a: real, b: real): real { if a > b then b else a }

  /** What flows in between two moments. */
  function Gain(rate: real, since: real, now: real): real { (now - since) * rate }

  /** The tokens of a host at a request; a new host starts with a full bucket. */
  function Level(l: Limits, t: Table, h: Host, now: real): real {
    if h in t then Min(t[h].tokens + Gain(l.rate, t[h].last, now), l.burst as real) else l.burst as real
  }

  function Evict(t: Table, now: real): Table {
    map h | h in t && !(t[h].last < now - IDLE_SECONDS) :: t[h]
  }

  datatype Outcome = Outcome(accepted: bool, table: Table)

  /** One request. `evicting` is false for the limiter that never forgets. */
  function Allow(l: Limits, t: Table, h: Host, now: real, evicting: bool): Outcome {
    var level := Level(l, t, h, now);
    if level < 1.0 then Outcome(false, t[h := Bucket(level, now)])
    else
      var u := t[h := Bucket(level - 1.0, now)];
      Outcome(true, if evicting && |u| > MAX_TABLE then Evict(u, now) else u)
  }

  class Server {
    var limits: Limits
    var buckets: Table

    constructor (limits: Limits)
      requires Valid(limits)
      ensures this.limits == limits && buckets == map[]
    {
      this.limits := limits;
      buckets := map[];
    }

    method SetRateLimit(rate: real, burst: int)
      requires Valid(limits)
      modifies this`limits
      ensures limits == if rate <= 0.0 || burst <= 0 then old(limits) else Limits(rate, burst)
      ensures Valid(limits)
    {
      if rate <= 0.0 || burst <= 0 {
        return;
      }
      limits := Limits(rate, burst);
    }

    /** `split` is the host part of `remote`, if it has one. */
    method AllowRequest(remote: string, split: Option<string>, now: real) returns (ok: bool)
      modifies this`buckets
      ensures var host := if split.None? then remote else split.value;
              var key := if host == "" then "unknown" else host;
              Outcome(ok, buckets) == Allow(old(limits), old(buckets), key, now, true)
    {
      var host := if split.None? then remote else split.value;
      if host == "" {
        host := "unknown";
      }
      var rec := if host in buckets then buckets[host] else Bucket(limits.burst as real, now);
      var tokens := rec.tokens + Gain(limits.rate, rec.last, now);
      if tokens > limits.burst as real {
        tokens := limits.burst as real;
      }
      NoGain(limits.rate, now);
      if tokens < 1.0 {
        buckets := buckets[host := Bucket(tokens, now)];
        return false;
      }
      buckets := buckets[host := Bucket(tokens - 1.0, now)];
      if |buckets| > MAX_TABLE {
        DropIdle(now);
      }
      return true;
    }

    method DropIdle(now: real)
      modifies this`buckets
      ensures buckets == Evict(old(buckets), now)
    {
      var cutoff := now - IDLE_SECONDS;
      var todo := buckets.Keys;
      ghost var before := buckets;
      while todo != {}
        invariant todo <= before.Keys
        invariant buckets == map h | h in before && (h in todo || !(before[h].last < cutoff)) :: before[h]
        decreases |todo|
      {
        var h :| h in todo;
        if buckets[h].last < cutoff {
          buckets := buckets - {h};
        }
        todo := todo - {h};
      }
    }
  }

  lemma NoGain(rate: real, now: real)
    ensures Gain(rate, now, now) == 0.0
  {
  }

  lemma GainGrows(rate: real, since: real, now: real, later: real)
    requires rate > 0.0 && now <= later
    ensures Gain(rate, since, later) == Gain(rate, since, now) + Gain(rate, now, later)
    ensures Gain(rate, now, later) >= 0.0
  {
  }

  /** A request forgets other hosts only when it is accepted and leaves more than 4096 records, and then
      exactly those that have been idle for more than ten minutes. */
  lemma ForgetsExactlyIdle(l: Limits, t: Table, h: Host, now: real, g: Host)
    requires g != h
    ensures var o := Allow(l, t, h, now, true);
            g in o.table <==> g in t && !(o.accepted && |t.Keys + {h}| > 4096 && t[g].last < now - 600.0)
    ensures var o := Allow(l, t, h, now, true); g in o.table ==> o.table[g] == t[g]
  {
    var level := Level(l, t, h, now);
    var u := t[h := Bucket(level - 1.0, now)];
    assert u.Keys == t.Keys + {h};
    assert |u| == |u.Keys|;
  }

  /** Accepted or not, a request settles the account of its host at this moment. */
  lemma RequestSettlesAccount(l: Limits, t: Table, h: Host, now: real, evicting: bool)
    ensures var o := Allow(l, t, h, now, evicting);
            && (o.accepted <==> Level(l, t, h, now) >= 1.0)
            && h in o.table
            && o.table[h] == Bucket(Level(l, t, h, now) - (if o.accepted then 1.0 else 0.0), now)
  {
  }

  // ---------------------------------------------------------------- runs

  datatype Request = Request(host: Host, now: real)

  /** The clock does not go backwards. */
  ghost predicate Timely(rs: seq<Request>) {
    forall i, j :: 0 <= i <= j < |rs| ==> rs[i].now <= rs[j].now
  }

  function Decisions(l: Limits, t: Table, rs: seq<Request>, evicting: bool): (ds: seq<bool>)
    ensures |ds| == |rs|
    decreases |rs|
  {
    if rs == [] then []
    else
      var o := Allow(l, t, rs[0].host, rs[0].now, evicting);
      [o.accepted] + Decisions(l, o.table, rs[1..], evicting)
  }

  function TableAfter(l: Limits, t: Table, rs: seq<Request>, evicting: bool): Table
    decreases |rs|
  {
    if rs == [] then t else TableAfter(l, Allow(l, t, rs[0].host, rs[0].now, evicting).table, rs[1..], evicting)
  }

  /** How many requests of one host were accepted. */
  function Accepted(h: Host, rs: seq<Request>, ds: seq<bool>): nat
    requires |rs| == |ds|
    decreases |rs|
  {
    if rs == [] then 0 else (if rs[0].host == h && ds[0] then 1 else 0) + Accepted(h, rs[1..], ds[1..])
  }

  lemma {:induction false} DecisionsSplit(l: Limits, t: Table, a: seq<Request>, b: seq<Request>, evicting: bool)
    ensures Decisions(l, t, a + b, evicting) == Decisions(l, t, a, evicting) + Decisions(l, TableAfter(l, t, a, evicting), b, evicting)
    decreases |a|
  {
    if a == [] {
      assert a + b == b;
    } else {
      assert (a + b)[0] == a[0] && (a + b)[1..] == a[1..] + b;
      DecisionsSplit(l, Allow(l, t, a[0].host, a[0].now, evicting).table, a[1..], b, evicting);
    }
  }

  lemma {:induction false} AcceptedSplits(h: Host, a: seq<Request>, b: seq<Request>, ds: seq<bool>, es: seq<bool>)
    requires |a| == |ds| && |b| == |es|
    ensures Accepted(h, a + b, ds + es) == Accepted(h, a, ds) + Accepted(h, b, es)
    decreases |a|
  {
    if a == [] {
      assert a + b == b && ds + es == es;
    } else {
      assert (a + b)[1..] == a[1..] + b && (ds + es)[1..] == ds[1..] + es;
      AcceptedSplits(h, a[1..], b, ds[1..], es);
    }
  }

  // ---------------------------------------------------------------- the limiter that never forgets

  /** What every table a run reaches looks like at time `clock`. */
  ghost predicate Sane(l: Limits, t: Table, clock: real) {
    forall h :: h in t ==> 0.0 <= t[h].tokens <= l.burst as real && t[h].last <= clock
  }

  lemma LevelIsSane(l: Limits, t: Table, h: Host, now: real)
    requires Valid(l) && Sane(l, t, now)
    ensures 0.0 <= Level(l, t, h, now) <= l.burst as real
  {
    if h in t {
      GainGrows(l.rate, t[h].last, t[h].last, now);
    }
  }

  lemma AllowIsSane(l: Limits, t: Table, h: Host, now: real, evicting: bool)
    requires Valid(l) && Sane(l, t, now)
    ensures Sane(l, Allow(l, t, h, now, evicting).table, now)
  {
    LevelIsSane(l, t, h, now);
  }

  /** A bucket gains at most `rate` tokens a second. */
  lemma LevelGrows(l: Limits, t: Table, h: Host, now: real, later: real)
    requires Valid(l) && now <= later
    ensures Level(l, t, h, now) <= Level(l, t, h, later) <= Level(l, t, h, now) + Gain(l.rate, now, later)
  {
    GainGrows(l.rate, now, now, later);
    if h in t {
      GainGrows(l.rate, t[h].last, now, later);
    }
  }

  /** Right after a request of `g` the bucket of `h` holds what it held, less one token if it was
      its own and accepted. */
  lemma LevelAfter(l: Limits, t: Table, h: Host, g: Host, now: real)
    requires Valid(l)
    ensures var o := Allow(l, t, g, now, false);
            Level(l, o.table, h, now) == Level(l, t, h, now) - (if g == h && o.accepted then 1.0 else 0.0)
  {
    NoGain(l.rate, now);
  }

  /** In any window a host is accepted at most as often as its bucket allows at the start plus what
      flows in during the window. */
  lemma {:induction false} WindowFrom(l: Limits, t: Table, h: Host, rs: seq<Request>)
    requires Valid(l) && Timely(rs) && rs != [] && Sane(l, t, rs[0].now)
    ensures Accepted(h, rs, Decisions(l, t, rs, false)) as real
         <= Level(l, t, h, rs[0].now) + Gain(l.rate, rs[0].now, rs[|rs| - 1].now)
    decreases |rs|
  {
    var now := rs[0].now;
    var o := Allow(l, t, rs[0].host, now, false);
    var ds := Decisions(l, t, rs, false);
    assert ds[1..] == Decisions(l, o.table, rs[1..], false);
    LevelIsSane(l, t, h, now);
    AllowIsSane(l, t, rs[0].host, now, false);
    LevelAfter(l, t, h, rs[0].host, now);
    LevelIsSane(l, o.table, h, now);
    NoGain(l.rate, now);
    if |rs| > 1 {
      var next := rs[1].now;
      WindowFrom(l, o.table, h, rs[1..]);
      LevelGrows(l, o.table, h, now, next);
      GainGrows(l.rate, now, next, rs[|rs| - 1].now);
    }
  }

  lemma {:induction false} TableIsSane(l: Limits, t: Table, rs: seq<Request>, clock: real, evicting: bool)
    requires Valid(l) && Timely(rs) && (rs != [] ==> Sane(l, t, rs[0].now) && rs[|rs| - 1].now <= clock)
    requires rs == [] ==> Sane(l, t, clock)
    ensures Sane(l, TableAfter(l, t, rs, evicting), clock)
    decreases |rs|
  {
    if rs != [] {
      AllowIsSane(l, t, rs[0].host, rs[0].now, evicting);
      TableIsSane(l, Allow(l, t, rs[0].host, rs[0].now, evicting).table, rs[1..], clock, evicting);
    }
  }

  /** The share of a host in the requests from `i` up to `j` of a run. */
  function InWindow(l: Limits, h: Host, rs: seq<Request>, i: nat, j: nat, evicting: bool): nat
    requires i <= j <= |rs|
  {
    Accepted(h, rs[i..j], Decisions(l, map[], rs, evicting)[i..j])
  }

  /** What a token bucket is for: at most a burst, and beyond that no more than the rate. */
  ghost predicate Bounded(l: Limits, evicting: bool) {
    forall h: Host, rs: seq<Request>, i: nat, j: nat :: Timely(rs) && i < j <= |rs| ==>
      InWindow(l, h, rs, i, j, evicting) as real <= l.burst as real + Gain(l.rate, rs[i].now, rs[j - 1].now)
  }

  lemma SplitAt<T>(s: seq<T>, i: nat, j: nat)
    requires i <= j <= |s|
    ensures s == s[..i] + (s[i..j] + s[j..])
  {
  }

  lemma EndOf<T>(a: seq<T>, b: seq<T>, c: seq<T>)
    ensures (a + (b + c))[|a| + |b|..] == c
  {
  }

  lemma DecisionsInWindow(l: Limits, rs: seq<Request>, i: nat, j: nat, evicting: bool)
    requires i <= j <= |rs|
    ensures Decisions(l, map[], rs, evicting)[i..j]
         == Decisions(l, TableAfter(l, map[], rs[..i], evicting), rs[i..j], evicting)
  {
    var t := TableAfter(l, map[], rs[..i], evicting);
    var u := TableAfter(l, t, rs[i..j], evicting);
    SplitAt(rs, i, j);
    DecisionsSplit(l, map[], rs[..i], rs[i..j] + rs[j..], evicting);
    DecisionsSplit(l, t, rs[i..j], rs[j..], evicting);
  }

  lemma OneWindow(l: Limits, h: Host, rs: seq<Request>, i: nat, j: nat)
    requires Valid(l) && Timely(rs) && i < j <= |rs|
    ensures InWindow(l, h, rs, i, j, false) as real <= l.burst as real + Gain(l.rate, rs[i].now, rs[j - 1].now)
  {
    var t := TableAfter(l, map[], rs[..i], false);
    DecisionsInWindow(l, rs, i, j, false);
    TableIsSane(l, map[], rs[..i], rs[i].now, false);
    WindowFrom(l, t, h, rs[i..j]);
    LevelIsSane(l, t, h, rs[i].now);
  }

  /** Without forgetting, every host is bounded in every window of every run. */
  lemma WindowBound(l: Limits)
    requires Valid(l)
    ensures Bounded(l, false)
  {
    forall h: Host, rs: seq<Request>, i: nat, j: nat | Timely(rs) && i < j <= |rs|
      ensures InWindow(l, h, rs, i, j, false) as real <= l.burst as real + Gain(l.rate, rs[i].now, rs[j - 1].now)
    {
      OneWindow(l, h, rs, i, j);
    }
  }

  /** A host that has waited for one token gets in, whatever the others do. */
  lemma PatientHostIsServed(l: Limits, t: Table, h: Host, now: real)
    requires Valid(l) && Sane(l, t, now)
    requires h in t ==> Gain(l.rate, t[h].last, now) >= 1.0
    ensures Allow(l, t, h, now, true).accepted
  {
    LevelIsSane(l, t, h, now);
  }

  // ---------------------------------------------------------------- forgetting goes unnoticed

  /** `t` is `u` without some hosts whose buckets are full again. */
  ghost predicate Forgets(l: Limits, t: Table, u: Table, clock: real) {
    && (forall h :: h in t ==> h in u && t[h] == u[h])
    && (forall h :: h in u && h !in t ==> u[h].tokens >= 0.0 && u[h].last < clock - IDLE_SECONDS)
  }

  lemma ForgottenIsFull(l: Limits, t: Table, u: Table, h: Host, now: real)
    requires Valid(l) && Forgets(l, t, u, now) && IDLE_SECONDS * l.rate >= l.burst as real
    ensures Level(l, t, h, now) == Level(l, u, h, now)
  {
    if h in u && h !in t {
      var since := u[h].last;
      GainGrows(l.rate, since, since + IDLE_SECONDS, now);
      assert Gain(l.rate, since, since + IDLE_SECONDS) == IDLE_SECONDS * l.rate;
    }
  }

  lemma ForgettingStep(l: Limits, t: Table, u: Table, h: Host, now: real)
    requires Valid(l) && Sane(l, u, now) && Forgets(l, t, u, now) && IDLE_SECONDS * l.rate >= l.burst as real
    ensures var a, b := Allow(l, t, h, now, true), Allow(l, u, h, now, false);
            a.accepted == b.accepted && Forgets(l, a.table, b.table, now)
  {
    ForgottenIsFull(l, t, u, h, now);
    AllowIsSane(l, u, h, now, false);
  }

  lemma {:induction false} ForgettingRun(l: Limits, t: Table, u: Table, rs: seq<Request>)
    requires Valid(l) && Timely(rs) && IDLE_SECONDS * l.rate >= l.burst as real
    requires rs != [] ==> Sane(l, u, rs[0].now) && Forgets(l, t, u, rs[0].now)
    ensures Decisions(l, t, rs, true) == Decisions(l, u, rs, false)
    decreases |rs|
  {
    if rs != [] {
      var r := rs[0];
      var a, b := Allow(l, t, r.host, r.now, true), Allow(l, u, r.host, r.now, false);
      ForgettingStep(l, t, u, r.host, r.now);
      AllowIsSane(l, u, r.host, r.now, false);
      ForgettingRun(l, a.table, b.table, rs[1..]);
    }
  }

  ghost predicate Unnoticed(l: Limits) {
    forall rs :: Timely(rs) ==> Decisions(l, map[], rs, true) == Decisions(l, map[], rs, false)
  }

  // ---------------------------------------------------------------- unless the rate is too low

  function Repeat(h: Host, now: real, n: nat): seq<Request> { seq(n, _ => Request(h, now)) }

  function AllTrue(n: nat): seq<bool> { seq(n, _ => true) }

  /** A bucket with at least one token lets a request through, and keeps the rest. */
  lemma OnePasses(l: Limits, t: Table, h: Host, now: real, n: nat, evicting: bool)
    requires Valid(l) && Level(l, t, h, now) == n as real && n > 0
    ensures var o := Allow(l, t, h, now, evicting); o.accepted && Level(l, o.table, h, now) == (n - 1) as real
  {
    NoGain(l.rate, now);
  }

  /** A bucket with `n` tokens lets a burst of `n` requests through. */
  lemma {:induction false} BurstPasses(l: Limits, t: Table, h: Host, now: real, n: nat, evicting: bool)
    requires Valid(l) && Level(l, t, h, now) == n as real
    ensures Decisions(l, t, Repeat(h, now, n), evicting) == AllTrue(n)
    decreases n
  {
    if n > 0 {
      OnePasses(l, t, h, now, n, evicting);
      assert Repeat(h, now, n)[1..] == Repeat(h, now, n - 1);
      assert AllTrue(n) == [true] + AllTrue(n - 1);
      BurstPasses(l, Allow(l, t, h, now, evicting).table, h, now, n - 1, evicting);
    }
  }

  /** The burst leaves an empty bucket. */
  lemma {:induction false} BurstEmpties(l: Limits, t: Table, h: Host, now: real, n: nat, evicting: bool)
    requires Valid(l) && n <= l.burst
    requires t == map[h := Bucket(n as real, now)] || (t == map[] && n == l.burst)
    ensures TableAfter(l, t, Repeat(h, now, n), evicting) == map[h := Bucket(0.0, now)]
    decreases n
  {
    if n > 0 {
      NoGain(l.rate, now);
      var next := map[h := Bucket((n - 1) as real, now)];
      assert Allow(l, t, h, now, evicting).table == next;
      assert Repeat(h, now, n)[1..] == Repeat(h, now, n - 1);
      BurstEmpties(l, next, h, now, n - 1, evicting);
    }
  }

  lemma {:induction false} AllAccepted(h: Host, now: real, n: nat)
    ensures Accepted(h, Repeat(h, now, n), AllTrue(n)) == n
  {
    if n > 0 {
      assert Repeat(h, now, n)[1..] == Repeat(h, now, n - 1) && AllTrue(n)[1..] == AllTrue(n - 1);
      AllAccepted(h, now, n - 1);
    }
  }

  const VICTIM: Host := "unknown"

  function Filler(k: nat): Host { seq(8 + k, _ => 'x') }

  /** One request each from hosts number `k` to the last that still fits the table. */
  function Fillers(k: nat, now: real): seq<Request>
    requires k <= MAX_TABLE
    decreases MAX_TABLE - k
  {
    if k == MAX_TABLE then [] else [Request(Filler(k), now)] + Fillers(k + 1, now)
  }

  lemma {:induction false} FillersAreOthers(k: nat, now: real)
    requires k <= MAX_TABLE
    ensures forall r :: r in Fillers(k, now) ==> r.host != VICTIM && r.now == now
    decreases MAX_TABLE - k
  {
    if k < MAX_TABLE {
      FillersAreOthers(k + 1, now);
    }
  }

  /** Enough other hosts make the table forget an idle one. */
  lemma {:induction false} FillersEvict(l: Limits, t: Table, k: nat, now: real)
    requires Valid(l) && k < MAX_TABLE && |t| == k + 1
    requires VICTIM in t && t[VICTIM].last < now - IDLE_SECONDS
    requires forall i: nat :: i >= k ==> Filler(i) !in t
    ensures VICTIM !in TableAfter(l, t, Fillers(k, now), true)
    decreases MAX_TABLE - k
  {
    var f := Filler(k);
    assert |f| == 8 + k && f != VICTIM;
    var u := t[f := Bucket(l.burst as real - 1.0, now)];
    assert u.Keys == t.Keys + {f};
    var o := Allow(l, t, f, now, true);
    if k + 1 < MAX_TABLE {
      assert o.table == u;
      forall i: nat | i >= k + 1 ensures Filler(i) !in u {
        assert |Filler(i)| == 8 + i;
      }
      FillersEvict(l, u, k + 1, now);
    } else {
      assert o.table == Evict(u, now);
    }
  }

  lemma {:induction false} OthersDoNotTouch(l: Limits, t: Table, h: Host, rs: seq<Request>)
    requires forall r :: r in rs ==> r.host != h
    requires h in t
    ensures var u := TableAfter(l, t, rs, false); h in u && u[h] == t[h]
    decreases |rs|
  {
    if rs != [] {
      assert rs[0] in rs;
      OthersDoNotTouch(l, Allow(l, t, rs[0].host, rs[0].now, false).table, h, rs[1..]);
    }
  }

  /** A moment after the bucket was forgotten at which it would not have been full yet. */
  lemma TooEarly(l: Limits) returns (late: real)
    requires Valid(l) && IDLE_SECONDS * l.rate < l.burst as real
    ensures late > IDLE_SECONDS && 0.0 < Gain(l.rate, 0.0, late) < l.burst as real
  {
    var q := l.burst as real / l.rate;
    assert q * l.rate == l.burst as real;
    GainGrows(l.rate, 0.0, if q <= IDLE_SECONDS then q else 0.0, IDLE_SECONDS);
    assert Gain(l.rate, 0.0, q) == q * l.rate && Gain(l.rate, 0.0, IDLE_SECONDS) == IDLE_SECONDS * l.rate;
    late := IDLE_SECONDS / 2.0 + q / 2.0;
    assert late * l.rate == IDLE_SECONDS * l.rate / 2.0 + q * l.rate / 2.0;
  }

  /** A burst, an idle time, many other hosts, and a second burst. */
  function Scenario(l: Limits, late: real): seq<Request> {
    Repeat(VICTIM, 0.0, l.burst) + (Fillers(0, late) + Repeat(VICTIM, late, l.burst))
  }

  lemma ScenarioIsTimely(l: Limits, late: real)
    requires late > 0.0
    ensures Timely(Scenario(l, late))
  {
    FillersAreOthers(0, late);
    var rs := Scenario(l, late);
    var n, m := l.burst, l.burst + |Fillers(0, late)|;
    forall i | 0 <= i < |rs| ensures rs[i].now == if i < n then 0.0 else late {
      if n <= i < m {
        assert rs[i] == Fillers(0, late)[i - n];
        assert rs[i] in Fillers(0, late);
      }
    }
  }

  /** The table lets both bursts through; the one that never forgets does not. */
  lemma ScenarioPasses(l: Limits, late: real)
    requires Valid(l) && late > IDLE_SECONDS
    ensures exists ds :: |ds| == |Fillers(0, late)| &&
              Decisions(l, map[], Scenario(l, late), true) == AllTrue(l.burst) + (ds + AllTrue(l.burst))
  {
    var b, f := Repeat(VICTIM, 0.0, l.burst), Fillers(0, late);
    var t := map[VICTIM := Bucket(0.0, 0.0)];
    BurstPasses(l, map[], VICTIM, 0.0, l.burst, true);
    BurstEmpties(l, map[], VICTIM, 0.0, l.burst, true);
    DecisionsSplit(l, map[], b, f + Repeat(VICTIM, late, l.burst), true);
    DecisionsSplit(l, t, f, Repeat(VICTIM, late, l.burst), true);
    forall i: nat ensures Filler(i) !in t {
      assert |Filler(i)| == 8 + i;
    }
    FillersEvict(l, t, 0, late);
    BurstPasses(l, TableAfter(l, t, f, true), VICTIM, late, l.burst, true);
  }

  /** The bucket that was not forgotten holds too little for the second burst. */
  lemma SecondBurstRefused(l: Limits, u: Table, late: real)
    requires Valid(l) && Sane(l, u, late) && VICTIM in u && u[VICTIM] == Bucket(0.0, 0.0)
    requires Gain(l.rate, 0.0, late) < l.burst as real
    ensures Decisions(l, u, Repeat(VICTIM, late, l.burst), false) != AllTrue(l.burst)
  {
    WindowFrom(l, u, VICTIM, Repeat(VICTIM, late, l.burst));
    NoGain(l.rate, late);
    AllAccepted(VICTIM, late, l.burst);
  }

  lemma FillersLeave(l: Limits, t: Table, late: real)
    requires Valid(l) && late > 0.0 && Sane(l, t, late) && VICTIM in t
    ensures var u := TableAfter(l, t, Fillers(0, late), false); Sane(l, u, late) && VICTIM in u && u[VICTIM] == t[VICTIM]
  {
    var f := Fillers(0, late);
    FillersAreOthers(0, late);
    OthersDoNotTouch(l, t, VICTIM, f);
    assert f[0] in f && f[|f| - 1] in f && Timely(f);
    TableIsSane(l, t, f, late, false);
  }

  lemma ScenarioRefuses(l: Limits, late: real)
    requires Valid(l) && late > IDLE_SECONDS && Gain(l.rate, 0.0, late) < l.burst as real
    ensures exists ds, es :: |ds| == |Fillers(0, late)| && |es| == l.burst && es != AllTrue(l.burst) &&
              Decisions(l, map[], Scenario(l, late), false) == AllTrue(l.burst) + (ds + es)
  {
    var b, f, c := Repeat(VICTIM, 0.0, l.burst), Fillers(0, late), Repeat(VICTIM, late, l.burst);
    var t := map[VICTIM := Bucket(0.0, 0.0)];
    BurstPasses(l, map[], VICTIM, 0.0, l.burst, false);
    BurstEmpties(l, map[], VICTIM, 0.0, l.burst, false);
    DecisionsSplit(l, map[], b, f + c, false);
    DecisionsSplit(l, t, f, c, false);
    FillersLeave(l, t, late);
    SecondBurstRefused(l, TableAfter(l, t, f, false), late);
  }

  lemma EndsDiffer<T>(a: seq<T>, b: seq<T>, c: seq<T>, d: seq<T>, e: seq<T>)
    requires |b| == |d| && c != e
    ensures a + (b + c) != a + (d + e)
  {
    EndOf(a, b, c);
    EndOf(a, d, e);
  }

  lemma ScenarioIsNoticed(l: Limits, late: real)
    requires Valid(l) && late > IDLE_SECONDS && Gain(l.rate, 0.0, late) < l.burst as real
    ensures Decisions(l, map[], Scenario(l, late), true) != Decisions(l, map[], Scenario(l, late), false)
  {
    var n, all := |Fillers(0, late)|, AllTrue(l.burst);
    ScenarioPasses(l, late);
    ScenarioRefuses(l, late);
    var ds :| |ds| == n && Decisions(l, map[], Scenario(l, late), true) == all + (ds + all);
    var more, es :| |more| == n && |es| == l.burst && es != all && Decisions(l, map[], Scenario(l, late), false) == all + (more + es);
    EndsDiffer(all, ds, all, more, es);
  }

  /** Forgetting idle hosts changes no decision of any run exactly if ten minutes fill a bucket. */
  lemma UnnoticedExactlyWhenFull(l: Limits)
    requires Valid(l)
    ensures Unnoticed(l) <==> IDLE_SECONDS * l.rate >= l.burst as real
  {
    if IDLE_SECONDS * l.rate >= l.burst as real {
      forall rs | Timely(rs) ensures Decisions(l, map[], rs, true) == Decisions(l, map[], rs, false) {
        ForgettingRun(l, map[], map[], rs);
      }
    } else {
      var late := TooEarly(l);
      ScenarioIsTimely(l, late);
      ScenarioIsNoticed(l, late);
    }
  }

  lemma ScenarioAccepts(l: Limits, late: real)
    requires Valid(l) && late > IDLE_SECONDS
    ensures Accepted(VICTIM, Scenario(l, late), Decisions(l, map[], Scenario(l, late), true)) >= 2 * l.burst
  {
    var b, f, c := Repeat(VICTIM, 0.0, l.burst), Fillers(0, late), Repeat(VICTIM, late, l.burst);
    var all := AllTrue(l.burst);
    ScenarioPasses(l, late);
    var ds :| |ds| == |f| && Decisions(l, map[], Scenario(l, late), true) == all + (ds + all);
    AcceptedSplits(VICTIM, b, f + c, all, ds + all);
    AcceptedSplits(VICTIM, f, c, ds, all);
    AllAccepted(VICTIM, 0.0, l.burst);
    AllAccepted(VICTIM, late, l.burst);
  }

  lemma ScenarioBreaksBound(l: Limits, late: real)
    requires Valid(l) && late > IDLE_SECONDS && Gain(l.rate, 0.0, late) < l.burst as real
    ensures !Bounded(l, true)
  {
    var rs := Scenario(l, late);
    ScenarioAccepts(l, late);
    assert rs[0..|rs|] == rs && Decisions(l, map[], rs, true)[0..|rs|] == Decisions(l, map[], rs, true);
    assert InWindow(l, VICTIM, rs, 0, |rs|, true) >= 2 * l.burst;
    assert rs[0].now == 0.0 && rs[|rs| - 1].now == late;
    ScenarioIsTimely(l, late);
  }

  /** The program's limiter keeps the token bucket's promise under the very same condition. */
  lemma BoundedExactlyWhenFull(l: Limits)
    requires Valid(l)
    ensures Bounded(l, true) <==> IDLE_SECONDS * l.rate >= l.burst as real
  {
    if IDLE_SECONDS * l.rate >= l.burst as real {
      WindowBound(l);
      UnnoticedExactlyWhenFull(l);
      forall h: Host, rs: seq<Request>, i: nat, j: nat | Timely(rs) && i < j <= |rs|
        ensures InWindow(l, h, rs, i, j, true) as real <= l.burst as real + Gain(l.rate, rs[i].now, rs[j - 1].now)
      {
        assert InWindow(l, h, rs, i, j, true) == InWindow(l, h, rs, i, j, false);
      }
    } else {
      var late := TooEarly(l);
      ScenarioBreaksBound(l, late);
    }
  }
}
