/** Service descriptors: how a publisher numbers them across crashes, how a directory replica keeps
    the newest, and what a lookup can rely on. Times are whole seconds unless said otherwise. */
module Revisions {
  import opened Common
  import opened NodeId
  import opened Wire

  /** `genuine` stands for everything a descriptor is verified for except the clock: version,
      network, key, introduction points and signature. */
  datatype Descriptor = Descriptor(service: Id, revision: Uint64, published: int, expires: int, genuine: bool)

  const FUTURE_SECONDS := 300

  predicate Verifies(d: Descriptor, now: int) {
    d.genuine && d.expires > now && d.published <= now + FUTURE_SECONDS
  }

  // ---------------------------------------------------------------- the publisher

  /** The counter in memory, if the process runs, and the one in the file, if there is one. */
  datatype Publisher = Publisher(memory: Option<Uint64>, disk: Option<Uint64>)

  /** The file is replaced by renaming, so a crash leaves the old number or the new one. */
  datatype Outcome = Saved | SaveFailed | CrashedBeforeRename | CrashedAfterRename

  datatype Event = Attempt(now: int, outcome: Outcome) | Crash | Restart(millis: nat)

  /** Where a publisher without a file starts: milliseconds shifted left by 16 bits, in 64 bits. */
  function Epoch(millis: nat): Uint64 { (millis * 0x1_0000) % UINT64 }

  function Step(p: Publisher, e: Event): Publisher {
    match e
    case Crash => p.(memory := None)
    case Restart(millis) => p.(memory := Some(if p.disk.Some? then p.disk.value else Epoch(millis)))
    case Attempt(_, o) =>
      if p.memory.None? then p
      else
        var next := Next(p.memory.value);
        Publisher(if o.Saved? || o.SaveFailed? then Some(next) else None,
                  if o.Saved? || o.CrashedAfterRename? then Some(next) else p.disk)
  }

  class PublishedService {
    var revision: Uint64
    var file: Option<Uint64>

    /** Start the process: read the file, or take the clock if there is none. */
    constructor (file: Option<Uint64>, millis: nat)
      ensures StateOf() == Step(Publisher(None, file), Restart(millis))
      ensures this.file == file && revision == if file.Some? then file.value else millis * 65536 % UINT64
    {
      this.file := file;
      revision := if file.Some? then file.value else Epoch(millis);
    }

    function StateOf(): Publisher
      reads this
    {
      Publisher(Some(revision), file)
    }

    /** The number of the next descriptor, once it is safely in the file. */
    method NextRevision(now: int, saved: bool) returns (r: Option<Uint64>)
      modifies this
      ensures StateOf() == Step(old(StateOf()), Attempt(now, if saved then Saved else SaveFailed))
      ensures revision == Next(old(revision)) && file == if saved then Some(revision) else old(file)
      ensures r == if saved then Some(revision) else None
    {
      revision := Next(revision);
      if !saved {
        return None;
      }
      file := Some(revision);
      return Some(revision);
    }
  }

  /** The descriptors that leave the publisher; all have the same lifetime. */
  function Published(p: Publisher, service: Id, ttl: nat, events: seq<Event>): seq<Descriptor>
    decreases |events|
  {
    if events == [] then []
    else
      var e := events[0];
      (if e.Attempt? && e.outcome.Saved? && p.memory.Some?
       then [Descriptor(service, Next(p.memory.value), e.now, e.now + ttl, true)] else [])
      + Published(Step(p, e), service, ttl, events[1..])
  }

  function Attempts(events: seq<Event>): nat {
    if events == [] then 0 else (if events[0].Attempt? then 1 else 0) + Attempts(events[1..])
  }

  ghost predicate EarlyClocks(events: seq<Event>) {
    forall e :: e in events && e.Restart? ==> e.millis < 0x8000_0000_0000
  }

  /** The counter cannot wrap: it starts low enough for the number of attempts. */
  ghost predicate Room(disk: Option<Uint64>, events: seq<Event>) {
    if disk.Some? then disk.value + Attempts(events) < UINT64
    else EarlyClocks(events) && Attempts(events) < 0x8000_0000_0000_0000
  }

  ghost predicate Increasing(ds: seq<Descriptor>) {
    forall i, j :: 0 <= i < j < |ds| ==> ds[i].revision < ds[j].revision
  }

  /** Nothing above `last` has been published, and there is still room. */
  ghost predicate Ready(p: Publisher, last: int, events: seq<Event>) {
    && Room(p.disk, events)
    && (if p.disk.Some? then last <= p.disk.value else last == -1)
    && (p.memory.Some? ==> last <= p.memory.value && p.memory.value + Attempts(events) < UINT64)
    && (p.memory.Some? && p.disk.Some? ==> p.disk.value <= p.memory.value)
  }

  lemma {:induction false} PublishedIncrease(p: Publisher, service: Id, ttl: nat, last: int, events: seq<Event>)
    requires Ready(p, last, events)
    ensures Increasing(Published(p, service, ttl, events))
    ensures forall d :: d in Published(p, service, ttl, events) ==> d.revision > last
    decreases |events|
  {
    if events != [] {
      var e := events[0];
      var now := if e.Attempt? && e.outcome.Saved? && p.memory.Some? then Next(p.memory.value) else last;
      PublishedIncrease(Step(p, e), service, ttl, now, events[1..]);
    }
  }

  /** Whatever attempts, failed saves, crashes and restarts happen in whatever order, no revision is
      published twice and every one is higher than all before it. */
  lemma RevisionsIncrease(disk: Option<Uint64>, service: Id, ttl: nat, events: seq<Event>)
    requires Room(disk, events)
    ensures Increasing(Published(Publisher(None, disk), service, ttl, events))
  {
    PublishedIncrease(Publisher(None, disk), service, ttl, -1, events);
  }

  /** The counter, wherever it is, cannot get to `top` in these attempts; every start without a file is
      early enough for the attempts that follow it. */
  ghost predicate Below(p: Publisher, events: seq<Event>, top: nat) {
    && (p.memory.Some? ==> p.memory.value + Attempts(events) < top)
    && (p.disk.Some? ==> p.disk.value + Attempts(events) < top)
    && forall i :: 0 <= i < |events| && events[i].Restart? ==> events[i].millis * 65536 + Attempts(events[i..]) < top
  }

  lemma {:induction false} PublishedBelow(p: Publisher, service: Id, ttl: nat, events: seq<Event>, top: nat)
    requires top <= UINT64 && Below(p, events, top)
    ensures forall d :: d in Published(p, service, ttl, events) ==> d.revision < top
    decreases |events|
  {
    if events != [] {
      assert events[0..] == events;
      forall i | 0 <= i < |events[1..]| && events[1..][i].Restart?
        ensures events[1..][i].millis * 65536 + Attempts(events[1..][i..]) < top
      {
        assert events[1..][i] == events[i + 1] && events[1..][i..] == events[i + 1..];
      }
      PublishedBelow(Step(p, events[0]), service, ttl, events[1..], top);
    }
  }

  /** The counter starts at or above `top` wherever it starts, and cannot wrap. */
  ghost predicate StartsAbove(p: Publisher, events: seq<Event>, top: nat) {
    && (p.memory.Some? ==> top <= p.memory.value && p.memory.value + Attempts(events) < UINT64)
    && (p.disk.Some? ==> top <= p.disk.value && p.disk.value + Attempts(events) < UINT64)
    && Attempts(events) < 0x8000_0000_0000_0000
    && forall e :: e in events && e.Restart? ==> top <= e.millis * 65536 && e.millis < 0x8000_0000_0000
  }

  lemma {:induction false} PublishedAbove(p: Publisher, service: Id, ttl: nat, events: seq<Event>, top: nat)
    requires StartsAbove(p, events, top)
    ensures forall d :: d in Published(p, service, ttl, events) ==> d.revision > top
    decreases |events|
  {
    if events != [] {
      PublishedAbove(Step(p, events[0]), service, ttl, events[1..], top);
    }
  }

  lemma JoinedIncrease(a: seq<Descriptor>, b: seq<Descriptor>, top: nat)
    requires Increasing(a) && Increasing(b)
    requires (forall d :: d in a ==> d.revision < top) && (forall d :: d in b ==> d.revision > top)
    ensures Increasing(a + b)
  {
    var ds := a + b;
    forall i, j | 0 <= i < j < |ds| ensures ds[i].revision < ds[j].revision {
      if i < |a| <= j {
        assert ds[i] in a && ds[j] in b;
      }
    }
  }

  /** What the clock is for: a publisher that has lost its file, and starts again at a later
      millisecond, goes on above everything it has published, as long as it made fewer than 65536
      attempts for every millisecond between a start and that moment. */
  lemma RestartWithoutFileGoesOn(service: Id, ttl: nat, before: seq<Event>, millis: nat, after: seq<Event>)
    requires forall i :: 0 <= i < |before| && before[i].Restart? ==>
               before[i].millis < millis && Attempts(before[i..]) < 65536 * (millis - before[i].millis)
    requires forall e :: e in after && e.Restart? ==> millis <= e.millis < 0x8000_0000_0000
    requires millis < 0x8000_0000_0000 && Attempts(after) < 0x8000_0000_0000_0000
    requires Attempts(before) < 0x8000_0000_0000_0000
    ensures Increasing(Published(Publisher(None, None), service, ttl, before)
                       + Published(Publisher(None, None), service, ttl, [Restart(millis)] + after))
  {
    var none := Publisher(None, None);
    var next := [Restart(millis)] + after;
    forall e | e in before && e.Restart? ensures e.millis < 0x8000_0000_0000 {
      var i :| 0 <= i < |before| && before[i] == e;
    }
    assert next[1..] == after;
    PublishedBelow(none, service, ttl, before, 65536 * millis);
    PublishedAbove(none, service, ttl, next, 65536 * millis);
    RevisionsIncrease(None, service, ttl, before);
    RevisionsIncrease(None, service, ttl, next);
    JoinedIncrease(Published(none, service, ttl, before), Published(none, service, ttl, next), 65536 * millis);
  }

  /** Whatever happens in at most `n` attempts, a publisher whose file holds `v` publishes higher and
      higher revisions above `v`. */
  ghost predicate SafeFor(v: Uint64, n: nat, service: Id, ttl: nat) {
    forall events :: Attempts(events) <= n ==> Above(v, Published(Publisher(None, Some(v)), service, ttl, events))
  }

  ghost predicate Above(v: Uint64, ds: seq<Descriptor>) {
    Increasing(ds) && forall d :: d in ds ==> d.revision > v
  }

  function Saves(n: nat): seq<Event> { seq(n, _ => Attempt(0, Saved)) }

  lemma {:induction false} SavesAreAttempts(n: nat)
    ensures Attempts(Saves(n)) == n
  {
    if n > 0 {
      assert Saves(n)[1..] == Saves(n - 1);
      SavesAreAttempts(n - 1);
    }
  }

  /** Saved attempts up to the end of the counter publish zero. */
  lemma {:induction false} SavesWrap(p: Publisher, n: nat, service: Id, ttl: nat)
    requires p.memory.Some? && n > 0 && p.memory.value + n == UINT64
    ensures exists d :: d in Published(p, service, ttl, Saves(n)) && d.revision == 0
    decreases n
  {
    var e := Attempt(0, Saved);
    assert Saves(n)[0] == e && Saves(n)[1..] == Saves(n - 1);
    var first := Descriptor(service, Next(p.memory.value), 0, ttl, true);
    assert Published(p, service, ttl, Saves(n)) == [first] + Published(Step(p, e), service, ttl, Saves(n - 1));
    if n == 1 {
      assert first in Published(p, service, ttl, Saves(n));
    } else {
      SavesWrap(Step(p, e), n - 1, service, ttl);
    }
  }

  /** The counter is safe for exactly as many attempts as there are numbers left above the file's. */
  lemma SafeExactlyWithRoom(v: Uint64, n: nat, service: Id, ttl: nat)
    ensures SafeFor(v, n, service, ttl) <==> v + n < UINT64
  {
    var p := Publisher(None, Some(v));
    if v + n < UINT64 {
      forall events | Attempts(events) <= n ensures Above(v, Published(p, service, ttl, events)) {
        PublishedIncrease(p, service, ttl, v, events);
      }
    } else {
      var m := UINT64 - v;
      var events := [Restart(0)] + Saves(m);
      assert events[1..] == Saves(m);
      SavesAreAttempts(m);
      SavesWrap(Step(p, Restart(0)), m, service, ttl);
      assert Published(p, service, ttl, events) == Published(Step(p, Restart(0)), service, ttl, Saves(m));
      assert !Above(v, Published(p, service, ttl, events));
    }
  }

  /** The publisher's clock does not go backwards. */
  ghost predicate Timely(events: seq<Event>) {
    forall i, j :: 0 <= i <= j < |events| && events[i].Attempt? && events[j].Attempt? ==> events[i].now <= events[j].now
  }

  ghost predicate Genuine(ds: seq<Descriptor>, service: Id, ttl: nat) {
    forall d :: d in ds ==> d.service == service && d.genuine && d.expires == d.published + ttl
  }

  ghost predicate InTime(ds: seq<Descriptor>) {
    forall i, j :: 0 <= i <= j < |ds| ==> ds[i].published <= ds[j].published
  }

  lemma {:induction false} PublishedInTime(p: Publisher, service: Id, ttl: nat, events: seq<Event>)
    requires Timely(events)
    ensures Genuine(Published(p, service, ttl, events), service, ttl) && InTime(Published(p, service, ttl, events))
    ensures forall d :: d in Published(p, service, ttl, events) ==> exists e :: e in events && e.Attempt? && e.now == d.published
    decreases |events|
  {
    if events != [] {
      PublishedInTime(Step(p, events[0]), service, ttl, events[1..]);
      assert events[0] in events;
    }
  }

  // ---------------------------------------------------------------- one replica

  type Table = map<Id, Descriptor>

  function Store(t: Table, d: Descriptor, now: int): Table {
    if Verifies(d, now) && !(d.service in t && t[d.service].revision >= d.revision) then t[d.service := d] else t
  }

  function Clean(t: Table, now: int): Table { map id | id in t && !(t[id].expires <= now) :: t[id] }

  ghost predicate KeysOk(t: Table) { forall id :: id in t ==> t[id].service == id && t[id].genuine }

  /** The highest revision among the replies that verify; the first of them if there are several. */
  ghost predicate IsBest(best: Option<Descriptor>, replies: seq<(Option<Descriptor>, int)>) {
    && (best.None? ==> forall i :: 0 <= i < |replies| && replies[i].0.Some? ==> !Verifies(replies[i].0.value, replies[i].1))
    && (best.Some? ==>
          && (exists i :: 0 <= i < |replies| && replies[i].0 == best && Verifies(best.value, replies[i].1))
          && (forall i :: 0 <= i < |replies| && replies[i].0.Some? && Verifies(replies[i].0.value, replies[i].1) ==>
                replies[i].0.value.revision <= best.value.revision))
  }

  class DirectoryNode {
    var descriptors: Table

    constructor ()
      ensures descriptors == map[]
    {
      descriptors := map[];
    }

    method StoreDescriptor(d: Descriptor, now: int) returns (stored: bool)
      modifies this
      ensures descriptors == Store(old(descriptors), d, now)
      ensures stored <==> descriptors != old(descriptors)
      ensures stored <==>
                && d.genuine && now < d.expires && d.published - 300 <= now
                && (d.service in old(descriptors) ==> old(descriptors)[d.service].revision < d.revision)
      ensures stored ==> descriptors == old(descriptors)[d.service := d]
      ensures KeysOk(old(descriptors)) ==> KeysOk(descriptors)
    {
      if !Verifies(d, now) {
        return false;
      }
      if d.service in descriptors && descriptors[d.service].revision >= d.revision {
        return false;
      }
      descriptors := descriptors[d.service := d];
      return true;
    }

    method CleanDescriptors(now: int)
      modifies this
      ensures descriptors == Clean(old(descriptors), now)
      ensures forall id :: id in descriptors <==> id in old(descriptors) && old(descriptors)[id].expires > now
      ensures forall id :: id in descriptors ==> descriptors[id] == old(descriptors)[id]
    {
      var todo := descriptors.Keys;
      ghost var before := descriptors;
      while todo != {}
        invariant todo <= before.Keys
        invariant descriptors == map id | id in before && (id in todo || !(before[id].expires <= now)) :: before[id]
        decreases |todo|
      {
        var id :| id in todo;
        if descriptors[id].expires <= now {
          descriptors := descriptors - {id};
        }
        todo := todo - {id};
      }
    }

    method InvalidateServiceDescriptor(id: Id)
      modifies this
      ensures descriptors == old(descriptors) - {id}
    {
      descriptors := descriptors - {id};
    }

    /** The end of a lookup: `replies` are the answers received, with their times, until all have
        come or a timer stops the wait. The best one is also stored. */
    method Conclude(replies: seq<(Option<Descriptor>, int)>, now: int) returns (best: Option<Descriptor>)
      modifies this
      ensures IsBest(best, replies)
      ensures descriptors == if best.Some? then Store(old(descriptors), best.value, now) else old(descriptors)
    {
      best := None;
      var i := 0;
      while i < |replies|
        invariant 0 <= i <= |replies|
        invariant IsBest(best, replies[..i])
        invariant descriptors == old(descriptors)
      {
        var (found, at) := replies[i];
        assert replies[..i + 1] == replies[..i] + [replies[i]];
        if found.Some? && Verifies(found.value, at) && (best.None? || found.value.revision > best.value.revision) {
          best := found;
          assert replies[..i + 1][i] == replies[i];
        } else if best.Some? {
          var k :| 0 <= k < i && replies[..i][k].0 == best && Verifies(best.value, replies[..i][k].1);
          assert replies[..i + 1][k] == replies[..i][k];
        }
        i := i + 1;
      }
      assert replies[..i] == replies;
      if best.Some? {
        var stored := StoreDescriptor(best.value, now);
      }
    }
  }

  /** A replica that is itself a client forgets a descriptor it could not use, expired or not. */
  datatype ReplicaEvent = Offer(d: Descriptor, now: int) | Sweep(now: int) | Forget(service: Id, now: int)

  /** Anything may be offered, in any order and repeatedly; only descriptors of `made` are genuine. */
  ghost predicate Admissible(made: set<Descriptor>, events: seq<ReplicaEvent>) {
    && (forall e :: e in events && e.Offer? && e.d.genuine ==> e.d in made)
    && (forall i, j :: 0 <= i <= j < |events| ==> events[i].now <= events[j].now)
  }

  function React(t: Table, e: ReplicaEvent): Table {
    match e
    case Offer(d, now) => Store(t, d, now)
    case Sweep(now) => Clean(t, now)
    case Forget(id, _) => t - {id}
  }

  /** The descriptors of one service that a replica takes, in order. */
  function Taken(t: Table, service: Id, events: seq<ReplicaEvent>): seq<Descriptor>
    decreases |events|
  {
    if events == [] then []
    else
      var e := events[0];
      (if e.Offer? && e.d.service == service && Store(t, e.d, e.now) != t then [e.d] else [])
      + Taken(React(t, e), service, events[1..])
  }

  /** A lower revision was published no later, and every descriptor lives for a while. */
  ghost predicate Chronological(made: set<Descriptor>, service: Id) {
    && (forall d :: d in made && d.service == service ==> d.genuine && d.published < d.expires)
    && (forall c, d :: c in made && d in made && c.service == service && d.service == service && c.revision <= d.revision ==>
          c.published <= d.published)
  }

  /** A lower revision expires no later. */
  ghost predicate ExpireInOrder(made: set<Descriptor>, service: Id) {
    forall c, d :: c in made && d in made && c.service == service && d.service == service && c.revision <= d.revision ==>
      c.expires <= d.expires
  }

  /** Nobody tells the replica to forget this service. */
  ghost predicate Keeping(service: Id, events: seq<ReplicaEvent>) {
    forall e :: e in events && e.Forget? ==> e.service != service
  }

  ghost predicate NeverRollsBack(made: set<Descriptor>, service: Id) {
    forall events :: Admissible(made, events) && Keeping(service, events) ==> Increasing(Taken(map[], service, events))
  }

  /** The last descriptor taken is still there, or has expired. */
  ghost predicate Remembers(t: Table, made: set<Descriptor>, service: Id, last: Option<Descriptor>, now: int) {
    && KeysOk(t)
    && (last.None? ==> service !in t)
    && (last.Some? ==> last.value in made && last.value.service == service
                       && (if service in t then t[service] == last.value else last.value.expires <= now))
  }

  lemma ReactRemembers(t: Table, made: set<Descriptor>, service: Id, last: Option<Descriptor>, e: ReplicaEvent)
    requires ExpireInOrder(made, service) && Remembers(t, made, service, last, e.now)
    requires e.Offer? && e.d.genuine ==> e.d in made
    requires e.Forget? ==> e.service != service
    ensures var took := e.Offer? && e.d.service == service && Store(t, e.d, e.now) != t;
            && Remembers(React(t, e), made, service, if took then Some(e.d) else last, e.now)
            && (took && last.Some? ==> last.value.revision < e.d.revision)
  {
  }

  lemma {:induction false} TakenIncrease(t: Table, made: set<Descriptor>, service: Id, last: Option<Descriptor>, events: seq<ReplicaEvent>)
    requires ExpireInOrder(made, service) && Admissible(made, events) && Keeping(service, events)
    requires events != [] ==> Remembers(t, made, service, last, events[0].now)
    ensures Increasing(Taken(t, service, events))
    ensures last.Some? ==> forall d :: d in Taken(t, service, events) ==> last.value.revision < d.revision
    decreases |events|
  {
    if events != [] {
      var e := events[0];
      assert e in events;
      ReactRemembers(t, made, service, last, e);
      var took := e.Offer? && e.d.service == service && Store(t, e.d, e.now) != t;
      TakenIncrease(React(t, e), made, service, if took then Some(e.d) else last, events[1..]);
    }
  }

  /** A replica that is never told to forget takes only ever higher revisions of a service, in every
      run and across every expiry, exactly if descriptors expire in the order of their revisions. */
  lemma NeverRollsBackExactlyWhen(made: set<Descriptor>, service: Id)
    requires Chronological(made, service)
    ensures NeverRollsBack(made, service) <==> ExpireInOrder(made, service)
  {
    if ExpireInOrder(made, service) {
      forall events | Admissible(made, events) && Keeping(service, events) ensures Increasing(Taken(map[], service, events)) {
        TakenIncrease(map[], made, service, None, events);
      }
    } else {
      var c, d :| c in made && d in made && c.service == service && d.service == service && c.revision <= d.revision && c.expires > d.expires;
      RollBack(made, service, c, d);
    }
  }

  /** The higher revision expires first, is swept away, and the lower one comes back. */
  lemma RollBack(made: set<Descriptor>, service: Id, c: Descriptor, d: Descriptor)
    requires Chronological(made, service) && c in made && d in made && c.service == service && d.service == service
    requires c.revision <= d.revision && c.expires > d.expires
    ensures !NeverRollsBack(made, service)
  {
    var events := [Offer(d, d.published), Sweep(d.expires), Offer(c, d.expires)];
    assert events[1..] == [Sweep(d.expires), Offer(c, d.expires)] && events[1..][1..] == [Offer(c, d.expires)];
    var t := map[service := d];
    assert Store(map[], d, d.published) == t;
    assert Clean(t, d.expires) == map[];
    assert Taken(map[], service, [Offer(c, d.expires)]) == [c] + Taken(map[service := c], service, []);
    assert Taken(t, service, events[1..]) == [c];
    assert Taken(map[], service, events) == [d, c];
    assert Admissible(made, events);
    var taken := Taken(map[], service, events);
    assert taken[0] == d && taken[1] == c;
  }

  // ---------------------------------------------------------------- one replica that forgets

  ghost predicate NotDecreasing(ds: seq<Descriptor>) {
    forall i, j :: 0 <= i < j < |ds| ==> ds[i].revision <= ds[j].revision
  }

  /** Forgetting lets the same descriptor come back, but never an older one. */
  ghost predicate NeverTakesOlder(made: set<Descriptor>, service: Id) {
    forall events :: Admissible(made, events) ==> NotDecreasing(Taken(map[], service, events))
  }

  /** A lower revision has expired before the earliest clock on which a higher one verifies. */
  ghost predicate GoneBefore(made: set<Descriptor>, service: Id) {
    forall c, d :: c in made && d in made && c.service == service && d.service == service && c.revision < d.revision ==>
      c.expires <= d.published - FUTURE_SECONDS
  }

  lemma {:induction false} TakenNotDecreasing(t: Table, made: set<Descriptor>, service: Id, last: Option<Descriptor>, events: seq<ReplicaEvent>)
    requires GoneBefore(made, service) && Admissible(made, events)
    requires last.Some? && events != [] ==>
               last.value in made && last.value.service == service && last.value.published <= events[0].now + FUTURE_SECONDS
    ensures NotDecreasing(Taken(t, service, events))
    ensures last.Some? ==> forall d :: d in Taken(t, service, events) ==> last.value.revision <= d.revision
    decreases |events|
  {
    if events != [] {
      var e := events[0];
      assert e in events;
      var took := e.Offer? && e.d.service == service && Store(t, e.d, e.now) != t;
      TakenNotDecreasing(React(t, e), made, service, if took then Some(e.d) else last, events[1..]);
    }
  }

  /** With forgetting, no replica in any run takes a lower revision after a higher one exactly if
      every lower revision is gone before the higher one can be taken at all. */
  lemma NeverTakesOlderExactlyWhen(made: set<Descriptor>, service: Id)
    requires Chronological(made, service)
    ensures NeverTakesOlder(made, service) <==> GoneBefore(made, service)
  {
    if GoneBefore(made, service) {
      forall events | Admissible(made, events) ensures NotDecreasing(Taken(map[], service, events)) {
        TakenNotDecreasing(map[], made, service, None, events);
      }
    } else {
      var c, d :| c in made && d in made && c.service == service && d.service == service && c.revision < d.revision
                  && c.expires > d.published - FUTURE_SECONDS;
      ForgettingRollsBack(made, c, d);
    }
  }

  /** The higher revision is taken as early as it verifies, forgotten, and the lower one comes back. */
  lemma ForgettingRollsBack(made: set<Descriptor>, c: Descriptor, d: Descriptor)
    requires Chronological(made, d.service) && c in made && d in made && c.service == d.service
    requires c.revision < d.revision && c.expires > d.published - FUTURE_SECONDS
    ensures !NeverTakesOlder(made, d.service)
  {
    var now := d.published - FUTURE_SECONDS;
    var events := [Offer(d, now), ReplicaEvent.Forget(d.service, now), Offer(c, now)];
    assert events[1..] == [ReplicaEvent.Forget(d.service, now), Offer(c, now)] && events[1..][1..] == [Offer(c, now)];
    var t := map[d.service := d];
    assert Store(map[], d, now) == t && t - {d.service} == map[];
    assert Taken(map[], d.service, [Offer(c, now)]) == [c] + Taken(map[d.service := c], d.service, []);
    assert Taken(t, d.service, events[1..]) == [c];
    var taken := Taken(map[], d.service, events);
    assert taken == [d, c] && Admissible(made, events);
    assert taken[0] == d && taken[1] == c;
  }

  /** What one publisher makes, with a fixed lifetime and a clock that does not go backwards, is in
      order. */
  lemma OnePublisherIsInOrder(disk: Option<Uint64>, service: Id, ttl: nat, events: seq<Event>)
    requires Room(disk, events) && Timely(events) && ttl > 0
    ensures var made := set d | d in Published(Publisher(None, disk), service, ttl, events);
            Chronological(made, service) && ExpireInOrder(made, service)
  {
    var ds := Published(Publisher(None, disk), service, ttl, events);
    RevisionsIncrease(disk, service, ttl, events);
    PublishedInTime(Publisher(None, disk), service, ttl, events);
    forall c, d | c in ds && d in ds && c.revision <= d.revision ensures c.published <= d.published {
      var i :| 0 <= i < |ds| && ds[i] == c;
      var j :| 0 <= j < |ds| && ds[j] == d;
      assert i <= j;
    }
  }

  // ---------------------------------------------------------------- lookups

  /** One lookup: who asks for which service, which nodes it asked, which of them it has heard, and
      the best reply so far. */
  datatype Lookup = Lookup(client: Id, service: Id, asked: set<Id>, heard: set<Id>, best: Option<Descriptor>)

  datatype Answer = Answer(request: nat, from: Id, found: Option<Descriptor>)

  /** The honest directory nodes, the answers they sent, and the running lookups by request ID. */
  datatype World = World(now: int, tables: map<Id, Table>, answers: set<Answer>, lookups: map<nat, Lookup>)

  datatype Move =
    | Tick(to: int)
    | Put(node: Id, d: Descriptor)
    | SweepAt(node: Id)
    | ForgetAt(node: Id, service: Id)
    | Ask(request: nat, client: Id, service: Id, asked: set<Id>)
    | Reply(request: nat, node: Id)
    | Hear(answer: Answer)
    | Finish(request: nat)

  /** A request ID is 128 random bits, known only to the nodes that were asked; those are honest. */
  ghost predicate Enabled(w: World, made: set<Descriptor>, m: Move) {
    match m
    case Tick(to) => w.now <= to
    case Put(n, d) => n in w.tables && (d.genuine ==> d in made)
    case SweepAt(n) => n in w.tables
    case ForgetAt(n, _) => n in w.tables
    case Ask(r, c, _, asked) => r !in w.lookups && c in w.tables && asked <= w.tables.Keys && c !in asked
                                && forall a :: a in w.answers ==> a.request != r
    case Reply(r, n) => r in w.lookups && n in w.lookups[r].asked && n in w.tables
    case Hear(a) => a in w.answers && a.request in w.lookups
    case Finish(r) => r in w.lookups && w.lookups[r].client in w.tables
  }

  function TableAt(w: World, n: Id): Table { if n in w.tables then w.tables[n] else map[] }

  /** The newer of what a lookup has and what it hears, if that verifies. */
  function Better(best: Option<Descriptor>, found: Option<Descriptor>, now: int): Option<Descriptor> {
    if found.Some? && Verifies(found.value, now) && (best.None? || found.value.revision > best.value.revision) then found else best
  }

  function MoveOn(w: World, m: Move): World {
    match m
    case Tick(to) => w.(now := to)
    case Put(n, d) => w.(tables := w.tables[n := Store(TableAt(w, n), d, w.now)])
    case SweepAt(n) => w.(tables := w.tables[n := Clean(TableAt(w, n), w.now)])
    case ForgetAt(n, s) => w.(tables := w.tables[n := TableAt(w, n) - {s}])
    case Ask(r, c, s, asked) => w.(lookups := w.lookups[r := Lookup(c, s, asked, {}, None)])
    case Reply(r, n) =>
      if r !in w.lookups then w
      else
        var s := w.lookups[r].service;
        w.(answers := w.answers + {Answer(r, n, if s in TableAt(w, n) then Some(TableAt(w, n)[s]) else None)})
    case Hear(a) =>
      if a.request !in w.lookups then w
      else
        var l := w.lookups[a.request];
        w.(lookups := w.lookups[a.request := l.(heard := l.heard + {a.from}, best := Better(l.best, a.found, w.now))])
    case Finish(r) =>
      if r !in w.lookups then w
      else
        var l := w.lookups[r];
        w.(lookups := w.lookups - {r},
           tables := if l.best.Some? then w.tables[l.client := Store(TableAt(w, l.client), l.best.value, w.now)] else w.tables)
  }

  /** All genuine descriptors there will ever be; nodes that keep what they hold of one service; a
      publication that has reached all of them; and the requests that are older than that. */
  datatype Claim = Claim(made: set<Descriptor>, keepers: set<Id>, latest: Descriptor, earlier: set<nat>)

  ghost predicate ClaimOk(k: Claim) { k.latest in k.made && ExpireInOrder(k.made, k.latest.service) }

  /** A run in which nobody tells the keepers to forget the service; other nodes may forget it. */
  ghost predicate Run(w: World, v: World, k: Claim, moves: seq<Move>)
    decreases |moves|
  {
    if moves == [] then w == v else Allowed(w, k, moves[0]) && Run(MoveOn(w, moves[0]), v, k, moves[1..])
  }

  ghost predicate Allowed(w: World, k: Claim, m: Move) {
    Enabled(w, k.made, m) && !(m.ForgetAt? && m.node in k.keepers && m.service == k.latest.service)
  }

  /** A descriptor that a node may file under or answer for `service`. */
  ghost predicate EntryOk(d: Descriptor, k: Claim, service: Id, now: int) {
    d in k.made && d.service == service && d.genuine && d.published <= now + FUTURE_SECONDS
  }

  ghost predicate TableOk(t: Table, k: Claim, now: int) { forall id :: id in t ==> EntryOk(t[id], k, id, now) }

  /** A keeper holds the publication or a later one, until it expires; then everything older has. */
  ghost predicate Current(t: Table, k: Claim, now: int) {
    if k.latest.service in t then t[k.latest.service].revision >= k.latest.revision else k.latest.expires <= now
  }

  ghost predicate NodeOk(w: World, k: Claim, n: Id) {
    n in w.tables ==> TableOk(w.tables[n], k, w.now) && (n in k.keepers ==> Current(w.tables[n], k, w.now))
  }

  /** A request for the service, made after the publication had reached the keepers. */
  ghost predicate Later(w: World, k: Claim, r: nat) {
    r in w.lookups && w.lookups[r].service == k.latest.service && r !in k.earlier
  }

  ghost predicate AnswerOk(w: World, k: Claim, a: Answer) {
    a in w.answers && a.request in w.lookups ==>
      && (a.found.Some? ==> EntryOk(a.found.value, k, w.lookups[a.request].service, w.now))
      && (Later(w, k, a.request) && a.from in k.keepers ==>
            if a.found.Some? then a.found.value.revision >= k.latest.revision else k.latest.expires <= w.now)
  }

  ghost predicate LookupOk(w: World, k: Claim, r: nat) {
    r in w.lookups ==>
      var l := w.lookups[r];
      && (l.best.Some? ==> l.best.value in k.made && l.best.value.service == l.service)
      && (Later(w, k, r) && l.heard * k.keepers != {} && k.latest.expires > w.now ==> l.best.Some?)
      && (Later(w, k, r) && l.heard * k.keepers != {} && k.latest.expires > w.now ==> l.best.value.revision >= k.latest.revision)
      && (Later(w, k, r) && l.heard <= k.keepers && l.best.Some? ==> l.best.value.revision >= k.latest.revision)
  }

  ghost predicate Inv(w: World, k: Claim) {
    && k.keepers <= w.tables.Keys
    && (forall n :: NodeOk(w, k, n)) && (forall a :: AnswerOk(w, k, a)) && (forall r :: LookupOk(w, k, r))
  }

  // The same as properties of worlds and claims.

  ghost const NODE_OK: (World, Claim, Id) -> bool := (w: World, k: Claim, n: Id) => NodeOk(w, k, n)
  ghost const LOOKUP_OK: (World, Claim, nat) -> bool := (w: World, k: Claim, r: nat) => LookupOk(w, k, r)
  ghost const INVARIANT: (World, Claim) -> bool := (w: World, k: Claim) => Inv(w, k)

  lemma StoreKeeps(t: Table, k: Claim, d: Descriptor, now: int)
    requires TableOk(t, k, now) && (d.genuine ==> d in k.made) && ClaimOk(k)
    ensures TableOk(Store(t, d, now), k, now)
    ensures Current(t, k, now) ==> Current(Store(t, d, now), k, now)
  {
  }

  lemma CleanKeeps(t: Table, k: Claim, now: int)
    requires TableOk(t, k, now) && ClaimOk(k)
    ensures TableOk(Clean(t, now), k, now)
    ensures Current(t, k, now) ==> Current(Clean(t, now), k, now)
  {
    assert k.latest.service in t ==> EntryOk(t[k.latest.service], k, k.latest.service, now);
  }

  lemma MoveKeepsNode(w: World, k: Claim, m: Move, n: Id)
    requires Inv(w, k) && Allowed(w, k, m) && ClaimOk(k)
    ensures NODE_OK(MoveOn(w, m), k, n)
  {
    assert NodeOk(w, k, n);
    if n in w.tables {
      match m
      case Put(_, d) => StoreKeeps(w.tables[n], k, d, w.now);
      case SweepAt(_) => CleanKeeps(w.tables[n], k, w.now);
      case Finish(r) =>
        assert LookupOk(w, k, r);
        if w.lookups[r].best.Some? {
          StoreKeeps(w.tables[n], k, w.lookups[r].best.value, w.now);
        }
      case _ =>
    }
  }

  /** An answer of a keeper verifies while the publication is valid, so the client takes it unless it
      has something newer. */
  lemma HearKeepsLookup(w: World, k: Claim, a: Answer)
    requires Inv(w, k) && Enabled(w, k.made, Hear(a)) && ClaimOk(k)
    ensures LOOKUP_OK(MoveOn(w, Hear(a)), k, a.request)
  {
    assert AnswerOk(w, k, a) && LookupOk(w, k, a.request);
  }

  lemma MoveKeeps(w: World, k: Claim, m: Move)
    requires Inv(w, k) && Allowed(w, k, m) && ClaimOk(k)
    ensures INVARIANT(MoveOn(w, m), k)
  {
    var v := MoveOn(w, m);
    forall n ensures NodeOk(v, k, n) {
      MoveKeepsNode(w, k, m, n);
    }
    forall a ensures AnswerOk(v, k, a) {
      assert AnswerOk(w, k, a);
      if m.Reply? {
        assert NodeOk(w, k, m.node);
      }
    }
    forall r ensures LookupOk(v, k, r) {
      assert LookupOk(w, k, r);
      if m.Hear? && m.answer.request == r {
        HearKeepsLookup(w, k, m.answer);
      }
    }
  }

  lemma {:induction false} RunKeeps(w: World, v: World, k: Claim, moves: seq<Move>)
    requires Inv(w, k) && Run(w, v, k, moves) && ClaimOk(k)
    ensures INVARIANT(v, k)
    decreases |moves|
  {
    if moves != [] {
      MoveKeeps(w, k, moves[0]);
      RunKeeps(MoveOn(w, moves[0]), v, k, moves[1..]);
    }
  }

  /** Nodes start with empty tables, and no lookup is running. */
  ghost predicate Fresh(w: World) {
    w.answers == {} && w.lookups == map[] && forall n :: n in w.tables ==> w.tables[n] == map[]
  }

  /** The publication has reached all keepers. */
  ghost predicate ReachedAll(w: World, k: Claim) {
    && k.keepers <= w.tables.Keys
    && forall n :: n in k.keepers ==> && k.latest.service in TableAt(w, n)
                                      && TableAt(w, n)[k.latest.service].revision >= k.latest.revision
  }

  /** Any run that brings the publication to all keepers, and any run of keeping after that. */
  ghost predicate History(start: World, w: World, v: World, k: Claim, before: seq<Move>, moves: seq<Move>) {
    && ClaimOk(k) && Fresh(start) && Run(start, w, k.(keepers := {}), before)
    && ReachedAll(w, k) && k.earlier == w.lookups.Keys && Run(w, v, k, moves)
  }

  lemma HistoryKeeps(start: World, w: World, v: World, k: Claim, before: seq<Move>, moves: seq<Move>)
    requires History(start, w, v, k, before, moves)
    ensures INVARIANT(v, k)
  {
    var none := k.(keepers := {});
    RunKeeps(start, w, none, before);
    assert Inv(w, k) by {
      forall n ensures NodeOk(w, k, n) {
        assert NodeOk(w, none, n);
      }
      forall a ensures AnswerOk(w, k, a) {
        assert AnswerOk(w, none, a);
      }
      forall q ensures LookupOk(w, k, q) {
        assert LookupOk(w, none, q);
      }
    }
    RunKeeps(w, v, k, moves);
  }

  /** Once a publication has reached the replicas of a service, every lookup that is started after
      that and has heard any of them finds the service, at that revision or a higher one, as long as
      the publication has not expired; nodes that forgot it or never had it cannot spoil that. If it
      has heard only such replicas, what it has is never older, expired or not. And it always has a
      descriptor of the service it asked for: the client does not compare it, it follows from what
      nodes file under which key. */
  lemma LookupReturnsLatest(start: World, w: World, v: World, k: Claim, before: seq<Move>, moves: seq<Move>, r: nat)
    requires History(start, w, v, k, before, moves) && Later(v, k, r)
    ensures var l := v.lookups[r];
            && (l.best.Some? ==> l.best.value.service == l.service)
            && (l.heard * k.keepers != {} && k.latest.expires > v.now ==>
                  l.best.Some? && l.best.value.revision >= k.latest.revision)
            && (l.heard <= k.keepers && l.best.Some? ==> l.best.value.revision >= k.latest.revision)
  {
    HistoryKeeps(start, w, v, k, before, moves);
    assert LookupOk(v, k, r);
  }

  /** A finished lookup leaves what it found, or something as new, with the client that asked. */
  lemma FinishedLookupIsKept(w: World, r: nat)
    requires r in w.lookups && w.lookups[r].best.Some? && Verifies(w.lookups[r].best.value, w.now)
    ensures var l := w.lookups[r];
            var t := TableAt(MoveOn(w, Finish(r)), l.client);
            && l.best.value.service in t && t[l.best.value.service].revision >= l.best.value.revision
            && r !in MoveOn(w, Finish(r)).lookups
  {
  }

  /** Sweeping leaves exactly what has not expired. */
  lemma SweepDropsExactlyExpired(w: World, n: Id, id: Id)
    requires n in w.tables
    ensures var t := TableAt(MoveOn(w, SweepAt(n)), n);
            && (id in t <==> id in w.tables[n] && w.tables[n][id].expires > w.now)
            && (id in t ==> t[id] == w.tables[n][id])
  {
  }

  /** Whatever a replica has answered, the moment the client hears it the lookup has found it. */
  lemma AnswerIsFound(start: World, w: World, v: World, k: Claim, before: seq<Move>, moves: seq<Move>, a: Answer)
    requires History(start, w, v, k, before, moves) && Later(v, k, a.request)
    requires Enabled(v, k.made, Hear(a)) && a.from in k.keepers && k.latest.expires > v.now
    ensures var l := MoveOn(v, Hear(a)).lookups[a.request];
            l.best.Some? && l.best.value.service == k.latest.service && l.best.value.revision >= k.latest.revision
  {
    HistoryKeeps(start, w, v, k, before, moves);
    HearKeepsLookup(v, k, a);
    assert a.from in MoveOn(v, Hear(a)).lookups[a.request].heard * k.keepers;
  }
}
