/**
 Fixed-window traffic buckets and the bounded map of scopes that evicts idle
 buckets. Times are milliseconds.
 */
module IngressScopes {
  import opened Numbers

  const RATE_WINDOW_MS := 60_000

  datatype Limits = Limits(events: nat, bytes: nat)

  datatype Decision = Decision(allowed: bool, retryAfterMs: int)

  // ----- one bucket as a value

  datatype Bucket = Bucket(windowStartedAt: int, events: nat, bytes: nat, lastSeenAt: int)

  function NewBucket(now: int): Bucket {
    Bucket(now, 0, 0, now)
  }

  /** The bucket whose window contains now: a lapsed window starts again, empty. */
  function Rolled(b: Bucket, now: int): Bucket {
    if now < b.windowStartedAt || now - b.windowStartedAt >= RATE_WINDOW_MS then NewBucket(now) else b.(lastSeenAt := now)
  }

  predicate Admits(b: Bucket, limits: Limits, bytes: nat) {
    b.events < limits.events && b.bytes + bytes <= limits.bytes
  }

  function AfterCharge(b: Bucket, limits: Limits, bytes: nat, now: int): Bucket {
    var r := Rolled(b, now);
    r.(events := Min(limits.events, r.events + 1), bytes := Min(limits.bytes, r.bytes + bytes))
  }

  function DecisionFor(b: Bucket, limits: Limits, bytes: nat, now: int): Decision {
    var r := Rolled(b, now);
    Decision(Admits(r, limits, bytes), Max(1, r.windowStartedAt + RATE_WINDOW_MS - now))
  }

  class TrafficBucket {
    var windowStartedAt: int
    var events: nat
    var bytes: nat
    var lastSeenAt: int

    ghost function View(): Bucket
      reads this
    {
      Bucket(windowStartedAt, events, bytes, lastSeenAt)
    }

    constructor (now: int)
      ensures View() == NewBucket(now)
    {
      windowStartedAt, events, bytes, lastSeenAt := now, 0, 0, now;
    }

    method Consume(limits: Limits, charge: nat, now: int) returns (decision: Decision)
      modifies this
      ensures View() == AfterCharge(old(View()), limits, charge, now)
      ensures decision == DecisionFor(old(View()), limits, charge, now)
    {
      if now < windowStartedAt || now - windowStartedAt >= RATE_WINDOW_MS {
        windowStartedAt, events, bytes := now, 0, 0;
      }
      lastSeenAt := now;
      var allowed := events < limits.events && charge <= limits.bytes - bytes;
      events := if limits.events < events + 1 then limits.events else events + 1;
      bytes := if limits.bytes < bytes + charge then limits.bytes else bytes + charge;
      decision := Decision(allowed, Max(1, windowStartedAt + RATE_WINDOW_MS - now));
    }
  }

  // ----- the bounded map as a value

  datatype Scopes = Scopes(buckets: map<string, Bucket>, nextSweepAt: int)

  datatype Config = Config(maximumScopes: nat, idleMs: int)

  datatype Outcome = Refused | Decided(decision: Decision)

  predicate Idle(b: Bucket, idleMs: int, now: int) {
    now < b.lastSeenAt || now - b.lastSeenAt >= idleMs
  }

  function Swept(s: Scopes, idleMs: int, now: int, force: bool): Scopes {
    if !force && now < s.nextSweepAt then s
    else Scopes(map id | id in s.buckets && !Idle(s.buckets[id], idleMs, now) :: s.buckets[id], now + RATE_WINDOW_MS)
  }

  /** The map after the sweeps of one `consume`, before the scope's own bucket is charged. */
  function Prepared(s: Scopes, c: Config, id: string, now: int): Scopes {
    var swept := Swept(s, c.idleMs, now, false);
    if id !in swept.buckets && |swept.buckets| >= c.maximumScopes then Swept(swept, c.idleMs, now, true) else swept
  }

  predicate IsRefused(s: Scopes, c: Config, id: string, now: int) {
    var p := Prepared(s, c, id, now);
    id !in p.buckets && |p.buckets| >= c.maximumScopes
  }

  function BucketOf(buckets: map<string, Bucket>, id: string, now: int): Bucket {
    if id in buckets then buckets[id] else NewBucket(now)
  }

  function AfterConsume(s: Scopes, c: Config, id: string, limits: Limits, charge: nat, now: int): Scopes {
    var p := Prepared(s, c, id, now);
    if IsRefused(s, c, id, now) then p
    else p.(buckets := p.buckets[id := AfterCharge(BucketOf(p.buckets, id, now), limits, charge, now)])
  }

  function OutcomeOf(s: Scopes, c: Config, id: string, limits: Limits, charge: nat, now: int): Outcome {
    if IsRefused(s, c, id, now) then Refused
    else Decided(DecisionFor(BucketOf(Prepared(s, c, id, now).buckets, id, now), limits, charge, now))
  }

  /** The entries that a sweep has not looked at yet, and those it has kept. */
  ghost function Kept<T>(before: map<string, T>, buckets: map<string, Bucket>, remaining: set<string>, idleMs: int, now: int): map<string, T>
    requires before.Keys == buckets.Keys
  {
    map id | id in before && (id in remaining || !Idle(buckets[id], idleMs, now)) :: before[id]
  }

  lemma AllKept<T>(before: map<string, T>, buckets: map<string, Bucket>, idleMs: int, now: int)
    requires before.Keys == buckets.Keys
    ensures Kept(before, buckets, before.Keys, idleMs, now) == before
  {
  }

  lemma KeptStep<T>(before: map<string, T>, buckets: map<string, Bucket>, remaining: set<string>, id: string, idleMs: int, now: int)
    requires before.Keys == buckets.Keys && id in remaining && id in before
    ensures Kept(before, buckets, remaining - {id}, idleMs, now)
         == if Idle(buckets[id], idleMs, now) then Kept(before, buckets, remaining, idleMs, now) - {id}
            else Kept(before, buckets, remaining, idleMs, now)
  {
  }

  class BoundedTrafficScopes {
    const maximumScopes: nat
    const idleMs: int
    var scopes: map<string, TrafficBucket>
    var nextSweepAt: int
    ghost var Repr: set<TrafficBucket>

    ghost predicate Valid()
      reads this
    {
      && (forall id | id in scopes :: scopes[id] in Repr)
      && (forall a, b | a in scopes && b in scopes && a != b :: scopes[a] != scopes[b])
    }

    ghost function View(): Scopes
      requires Valid()
      reads this, Repr
    {
      Scopes(map id | id in scopes :: scopes[id].View(), nextSweepAt)
    }

    ghost function Limit(): Config {
      Config(maximumScopes, idleMs)
    }

    constructor (maximumScopes: nat, idleMs: int, now: int)
      ensures Valid() && Repr == {} && View() == Scopes(map[], now + RATE_WINDOW_MS)
      ensures Limit() == Config(maximumScopes, idleMs)
    {
      this.maximumScopes, this.idleMs := maximumScopes, idleMs;
      scopes, nextSweepAt, Repr := map[], now + RATE_WINDOW_MS, {};
    }

    /** The loop of a sweep over the entries as they were. */
    method DropIdle(now: int)
      requires Valid()
      modifies `scopes
      ensures Valid()
      ensures scopes == Kept(old(scopes), old(View()).buckets, {}, idleMs, now)
    {
      ghost var before, buckets := scopes, View().buckets;
      var remaining := scopes.Keys;
      AllKept(before, buckets, idleMs, now);
      while remaining != {}
        invariant remaining <= before.Keys == buckets.Keys && scopes == Kept(before, buckets, remaining, idleMs, now)
        decreases |remaining|
      {
        var id :| id in remaining;
        var scope := scopes[id];
        assert scope == before[id] && scope.View() == buckets[id];
        if now < scope.lastSeenAt || now - scope.lastSeenAt >= idleMs {
          scopes := scopes - {id};
        }
        KeptStep(before, buckets, remaining, id, idleMs, now);
        remaining := remaining - {id};
      }
    }

    method Sweep(now: int, force: bool)
      requires Valid()
      modifies `scopes, `nextSweepAt
      ensures Valid() && View() == Swept(old(View()), idleMs, now, force)
    {
      if !force && now < nextSweepAt {
        return;
      }
      DropIdle(now);
      nextSweepAt := now + RATE_WINDOW_MS;
    }

    /** The scope's bucket is charged, and no other. */
    method ChargeScope(id: string, limits: Limits, charge: nat, now: int) returns (decision: Decision)
      requires Valid() && id in scopes
      modifies Repr
      ensures Valid()
      ensures View() == old(View()).(buckets := old(View()).buckets[id := AfterCharge(old(View()).buckets[id], limits, charge, now)])
      ensures decision == DecisionFor(old(View()).buckets[id], limits, charge, now)
    {
      decision := scopes[id].Consume(limits, charge, now);
    }

    method AddScope(id: string, now: int)
      requires Valid() && id !in scopes
      modifies `scopes, `Repr
      ensures Valid() && fresh(Repr - old(Repr)) && id in scopes
      ensures View() == old(View()).(buckets := old(View()).buckets[id := NewBucket(now)])
    {
      var created := new TrafficBucket(now);
      scopes, Repr := scopes[id := created], Repr + {created};
    }

    lemma SameSize()
      requires Valid()
      ensures View().buckets.Keys == scopes.Keys && |View().buckets| == |scopes|
    {
      assert View().buckets.Keys == scopes.Keys;
      assert |View().buckets| == |View().buckets.Keys| && |scopes| == |scopes.Keys|;
    }

    /** The sweeps before a charge; refuses a new scope when the map is still full. */
    method Prepare(id: string, now: int) returns (refused: bool)
      requires Valid()
      modifies `scopes, `nextSweepAt
      ensures Valid() && View() == Prepared(old(View()), Limit(), id, now)
      ensures refused == IsRefused(old(View()), Limit(), id, now)
      ensures View().buckets.Keys == scopes.Keys
    {
      Sweep(now, false);
      SameSize();
      refused := false;
      if id !in scopes && |scopes| >= maximumScopes {
        Sweep(now, true);
        SameSize();
        refused := |scopes| >= maximumScopes;
      }
    }

    method Consume(id: string, limits: Limits, charge: nat, now: int) returns (decision: Decision)
      requires Valid()
      modifies this, Repr
      ensures Valid() && fresh(Repr - old(Repr))
      ensures View() == AfterConsume(old(View()), Limit(), id, limits, charge, now)
      ensures decision == match OutcomeOf(old(View()), Limit(), id, limits, charge, now)
                          case Refused => Decision(false, RATE_WINDOW_MS)
                          case Decided(d) => d
    {
      var refused := Prepare(id, now);
      if refused {
        return Decision(false, RATE_WINDOW_MS);
      }
      ghost var prepared := View();
      if id !in scopes {
        AddScope(id, now);
      }
      ghost var added := View();
      assert added.buckets == prepared.buckets[id := BucketOf(prepared.buckets, id, now)];
      decision := ChargeScope(id, limits, charge, now);
      assert View().buckets == prepared.buckets[id := AfterCharge(BucketOf(prepared.buckets, id, now), limits, charge, now)];
    }
  }

  // ----- runs

  datatype Request = Request(id: string, limits: Limits, bytes: nat, now: int)

  predicate Monotone(requests: seq<Request>, now: int)
    decreases |requests|
  {
    requests == [] || (now <= requests[0].now && Monotone(requests[1..], requests[0].now))
  }

  function RunBounded(s: Scopes, c: Config, requests: seq<Request>): seq<Outcome>
    decreases |requests|
  {
    if requests == [] then []
    else
      var r := requests[0];
      [OutcomeOf(s, c, r.id, r.limits, r.bytes, r.now)]
      + RunBounded(AfterConsume(s, c, r.id, r.limits, r.bytes, r.now), c, requests[1..])
  }

  /** An unbounded map that never evicts, fed only the requests that were not refused. */
  function RunUnbounded(u: map<string, Bucket>, requests: seq<Request>, outcomes: seq<Outcome>): seq<Outcome>
    requires |outcomes| == |requests|
    decreases |requests|
  {
    if requests == [] then []
    else if outcomes[0].Refused? then [Refused] + RunUnbounded(u, requests[1..], outcomes[1..])
    else
      var r := requests[0];
      var b := BucketOf(u, r.id, r.now);
      [Decided(DecisionFor(b, r.limits, r.bytes, r.now))]
      + RunUnbounded(u[r.id := AfterCharge(b, r.limits, r.bytes, r.now)], requests[1..], outcomes[1..])
  }

  predicate BucketOk(b: Bucket, now: int) {
    b.windowStartedAt <= b.lastSeenAt <= now && b.lastSeenAt - b.windowStartedAt < RATE_WINDOW_MS
  }

  /** Kept buckets agree; evicted ones have a lapsed window, so they would roll over anyway. */
  ghost predicate Simulates(s: Scopes, u: map<string, Bucket>, now: int) {
    && (forall id | id in u :: BucketOk(u[id], now))
    && (forall id | id in s.buckets :: id in u && u[id] == s.buckets[id])
    && (forall id | id in u && id !in s.buckets :: now - u[id].windowStartedAt >= RATE_WINDOW_MS)
  }

  lemma StepSimulates(s: Scopes, u: map<string, Bucket>, c: Config, r: Request, now: int)
    requires c.idleMs >= RATE_WINDOW_MS && now <= r.now && Simulates(s, u, now)
    ensures var next := AfterConsume(s, c, r.id, r.limits, r.bytes, r.now);
      if IsRefused(s, c, r.id, r.now) then Simulates(next, u, r.now)
      else
        var b := BucketOf(u, r.id, r.now);
        && OutcomeOf(s, c, r.id, r.limits, r.bytes, r.now) == Decided(DecisionFor(b, r.limits, r.bytes, r.now))
        && Simulates(next, u[r.id := AfterCharge(b, r.limits, r.bytes, r.now)], r.now)
  {
    var p := Prepared(s, c, r.id, r.now);
    assert forall id | id in s.buckets && id !in p.buckets :: Idle(s.buckets[id], c.idleMs, r.now);
    assert Simulates(p, u, r.now);
  }

  /** Runs of the bounded map, and everything kept about it, from simulating states. */
  lemma {:induction false} BoundedRefines(s: Scopes, u: map<string, Bucket>, c: Config, requests: seq<Request>, now: int)
    requires c.idleMs >= RATE_WINDOW_MS && Monotone(requests, now) && Simulates(s, u, now)
    ensures |RunBounded(s, c, requests)| == |requests|
    ensures RunBounded(s, c, requests) == RunUnbounded(u, requests, RunBounded(s, c, requests))
    decreases |requests|
  {
    if requests != [] {
      var r := requests[0];
      StepSimulates(s, u, c, r, now);
      var b := BucketOf(u, r.id, r.now);
      var u' := if IsRefused(s, c, r.id, r.now) then u else u[r.id := AfterCharge(b, r.limits, r.bytes, r.now)];
      BoundedRefines(AfterConsume(s, c, r.id, r.limits, r.bytes, r.now), u', c, requests[1..], r.now);
      assert RunBounded(s, c, requests)[1..] == RunBounded(AfterConsume(s, c, r.id, r.limits, r.bytes, r.now), c, requests[1..]);
    }
  }

  /**
   Eviction never changes a decision: with a monotone clock and an idle time of at
   least a window, every request not refused for scope capacity is decided as by a
   map that never evicts.
   */
  lemma EvictionIsInvisible(c: Config, requests: seq<Request>, start: int)
    requires c.idleMs >= RATE_WINDOW_MS && Monotone(requests, start)
    ensures var outcomes := RunBounded(Scopes(map[], start + RATE_WINDOW_MS), c, requests);
      |outcomes| == |requests| && outcomes == RunUnbounded(map[], requests, outcomes)
  {
    BoundedRefines(Scopes(map[], start + RATE_WINDOW_MS), map[], c, requests, start);
  }

  /** The map never holds more than the maximum number of scopes. */
  lemma ScopesStayBounded(s: Scopes, c: Config, id: string, limits: Limits, charge: nat, now: int)
    requires |s.buckets| <= c.maximumScopes
    ensures |AfterConsume(s, c, id, limits, charge, now).buckets| <= c.maximumScopes
  {
    var p := Prepared(s, c, id, now);
    assert |p.buckets| <= |s.buckets| by {
      SubsetSize(p.buckets.Keys, s.buckets.Keys);
      assert |p.buckets| == |p.buckets.Keys| && |s.buckets| == |s.buckets.Keys|;
    }
    var next := AfterConsume(s, c, id, limits, charge, now);
    assert |next.buckets| == |next.buckets.Keys|;
    assert id in p.buckets ==> next.buckets.Keys == p.buckets.Keys;
    assert id !in p.buckets && next != p ==> next.buckets.Keys == p.buckets.Keys + {id};
  }

  // ----- how long a denial lasts

  function AfterRun(s: Scopes, c: Config, requests: seq<Request>): Scopes
    decreases |requests|
  {
    if requests == [] then s
    else
      var r := requests[0];
      AfterRun(AfterConsume(s, c, r.id, r.limits, r.bytes, r.now), c, requests[1..])
  }

  predicate AllUntil(requests: seq<Request>, later: int) {
    forall k | 0 <= k < |requests| :: requests[k].now <= later
  }

  predicate UsesLimits(requests: seq<Request>, id: string, limits: Limits) {
    forall k | 0 <= k < |requests| && requests[k].id == id :: requests[k].limits == limits
  }

  /** The scope's bucket in the window that started at `start`, with no room for another event, or for another byte. */
  predicate Exhausted(s: Scopes, id: string, limits: Limits, start: int, now: int) {
    && id in s.buckets && s.buckets[id].windowStartedAt == start <= s.buckets[id].lastSeenAt <= now
    && s.buckets[id].events <= limits.events && s.buckets[id].bytes <= limits.bytes
    && (s.buckets[id].events == limits.events || s.buckets[id].bytes == limits.bytes)
  }

  lemma ExhaustedStays(s: Scopes, c: Config, id: string, limits: Limits, start: int, now: int, r: Request)
    requires c.idleMs >= RATE_WINDOW_MS && Exhausted(s, id, limits, start, now) && now <= r.now < start + RATE_WINDOW_MS
    requires r.id == id ==> r.limits == limits
    ensures Exhausted(AfterConsume(s, c, r.id, r.limits, r.bytes, r.now), id, limits, start, r.now)
    ensures Exhausted(Prepared(s, c, r.id, r.now), id, limits, start, now)
  {
    var b := s.buckets[id];
    assert !Idle(b, c.idleMs, r.now);
    assert Prepared(s, c, r.id, r.now).buckets[id] == b;
  }

  lemma {:induction false} ExhaustedAfterRun(s: Scopes, c: Config, id: string, limits: Limits, start: int, now: int,
                                             requests: seq<Request>, later: int)
    requires c.idleMs >= RATE_WINDOW_MS && Exhausted(s, id, limits, start, now)
    requires Monotone(requests, now) && AllUntil(requests, later) && UsesLimits(requests, id, limits)
    requires now <= later < start + RATE_WINDOW_MS
    ensures Exhausted(AfterRun(s, c, requests), id, limits, start, later)
    decreases |requests|
  {
    if requests != [] {
      var r := requests[0];
      assert r.now <= later;
      ExhaustedStays(s, c, id, limits, start, now, r);
      ExhaustedAfterRun(AfterConsume(s, c, r.id, r.limits, r.bytes, r.now), c, id, limits, start, r.now, requests[1..], later);
    }
  }

  /** The states of the bounded map in runs with a clock that does not go back. */
  ghost predicate Sound(s: Scopes, now: int) {
    forall id | id in s.buckets :: BucketOk(s.buckets[id], now)
  }

  /** A denied charge leaves no room for an event or for a byte; an oversized one is denied and fills the bytes. */
  lemma DenialExhausts(s: Scopes, c: Config, id: string, limits: Limits, charge: nat, now: int, d: Decision)
    requires Sound(s, now) && OutcomeOf(s, c, id, limits, charge, now) == Decided(d)
    ensures charge > limits.bytes ==> !d.allowed && AfterConsume(s, c, id, limits, charge, now).buckets[id].bytes == limits.bytes
    ensures !d.allowed ==> Exhausted(AfterConsume(s, c, id, limits, charge, now), id, limits, now + d.retryAfterMs - RATE_WINDOW_MS, now)
    ensures 0 < d.retryAfterMs <= RATE_WINDOW_MS
  {
  }

  /**
   After a denial with the hint d, and whatever is charged to whom and swept meanwhile, every charge of at least one
   byte to that scope before now + d.retryAfterMs is denied, and its hint names the same time.
   */
  lemma DenialLasts(s: Scopes, c: Config, id: string, limits: Limits, charge: nat, now: int, d: Decision,
                    between: seq<Request>, later: int, bytes: nat)
    requires c.idleMs >= RATE_WINDOW_MS && Sound(s, now)
    requires OutcomeOf(s, c, id, limits, charge, now) == Decided(d) && !d.allowed
    requires Monotone(between, now) && AllUntil(between, later) && UsesLimits(between, id, limits)
    requires now <= later < now + d.retryAfterMs
    ensures var outcome := OutcomeOf(AfterRun(AfterConsume(s, c, id, limits, charge, now), c, between), c, id, limits, bytes, later);
      && outcome.Decided? && later + outcome.decision.retryAfterMs == now + d.retryAfterMs
      && (bytes > 0 ==> !outcome.decision.allowed)
  {
    var start := now + d.retryAfterMs - RATE_WINDOW_MS;
    var next := AfterConsume(s, c, id, limits, charge, now);
    DenialExhausts(s, c, id, limits, charge, now, d);
    ExhaustedAfterRun(next, c, id, limits, start, now, between, later);
    ExhaustedStays(AfterRun(next, c, between), c, id, limits, start, later, Request(id, limits, bytes, later));
  }

  /** The scope's bucket is still of the window that started at `start`, or is gone after that window. */
  predicate LeftOver(s: Scopes, id: string, start: int, now: int) {
    if id in s.buckets then s.buckets[id].windowStartedAt == start <= s.buckets[id].lastSeenAt <= now
    else now >= start + RATE_WINDOW_MS
  }

  lemma LeftOverStays(s: Scopes, c: Config, id: string, start: int, now: int, r: Request)
    requires c.idleMs >= RATE_WINDOW_MS && LeftOver(s, id, start, now) && now <= r.now
    requires r.id == id ==> r.now < start + RATE_WINDOW_MS
    ensures LeftOver(AfterConsume(s, c, r.id, r.limits, r.bytes, r.now), id, start, r.now)
    ensures LeftOver(Prepared(s, c, r.id, r.now), id, start, r.now)
  {
    var p := Prepared(s, c, r.id, r.now);
    if id in s.buckets && id !in p.buckets {
      assert Idle(s.buckets[id], c.idleMs, r.now);
    }
    assert id in p.buckets ==> id in s.buckets && p.buckets[id] == s.buckets[id];
  }

  lemma LeftOverPrepared(s: Scopes, c: Config, id: string, start: int, now: int, later: int)
    requires c.idleMs >= RATE_WINDOW_MS && LeftOver(s, id, start, now) && now <= later && start + RATE_WINDOW_MS <= later
    ensures LeftOver(Prepared(s, c, id, later), id, start, later)
  {
    var p := Prepared(s, c, id, later);
    assert id in p.buckets ==> id in s.buckets && p.buckets[id] == s.buckets[id];
  }

  lemma {:induction false} LeftOverAfterRun(s: Scopes, c: Config, id: string, start: int, now: int, requests: seq<Request>, later: int)
    returns (last: int)
    requires c.idleMs >= RATE_WINDOW_MS && LeftOver(s, id, start, now) && Monotone(requests, now) && AllUntil(requests, later)
    requires forall k | 0 <= k < |requests| && requests[k].id == id :: requests[k].now < start + RATE_WINDOW_MS
    requires now <= later
    ensures last <= later && LeftOver(AfterRun(s, c, requests), id, start, last)
    decreases |requests|
  {
    last := now;
    if requests != [] {
      var r := requests[0];
      assert r.now <= later;
      LeftOverStays(s, c, id, start, now, r);
      last := LeftOverAfterRun(AfterConsume(s, c, r.id, r.limits, r.bytes, r.now), c, id, start, r.now, requests[1..], later);
    }
  }

  /**
   After a denial with the hint d, a charge to that scope that comes first at or after now + d.retryAfterMs, and is
   not refused for scope capacity, is allowed if and only if it fits the limits alone, whatever was swept meanwhile.
   */
  lemma DenialEnds(s: Scopes, c: Config, id: string, limits: Limits, charge: nat, now: int, d: Decision,
                   between: seq<Request>, later: int, bytes: nat)
    requires c.idleMs >= RATE_WINDOW_MS && Sound(s, now)
    requires OutcomeOf(s, c, id, limits, charge, now) == Decided(d) && !d.allowed
    requires Monotone(between, now) && AllUntil(between, later)
    requires forall k | 0 <= k < |between| && between[k].id == id :: between[k].now < now + d.retryAfterMs
    requires now + d.retryAfterMs <= later
    ensures var outcome := OutcomeOf(AfterRun(AfterConsume(s, c, id, limits, charge, now), c, between), c, id, limits, bytes, later);
      outcome.Decided? ==> outcome.decision == Decision(limits.events > 0 && bytes <= limits.bytes, RATE_WINDOW_MS)
  {
    var start := now + d.retryAfterMs - RATE_WINDOW_MS;
    var next := AfterConsume(s, c, id, limits, charge, now);
    DenialExhausts(s, c, id, limits, charge, now, d);
    var last := LeftOverAfterRun(next, c, id, start, now, between, later);
    LeftOverPrepared(AfterRun(next, c, between), c, id, start, last, later);
  }

  /** Every run from an empty map with a clock that does not go back stays sound. */
  lemma {:induction false} RunsAreSound(s: Scopes, c: Config, requests: seq<Request>, now: int, later: int)
    requires Sound(s, now) && Monotone(requests, now) && AllUntil(requests, later) && now <= later
    ensures Sound(AfterRun(s, c, requests), later)
    decreases |requests|
  {
    if requests != [] {
      var r := requests[0];
      assert r.now <= later;
      var next := AfterConsume(s, c, r.id, r.limits, r.bytes, r.now);
      assert Sound(next, r.now) by {
        forall id | id in next.buckets
          ensures BucketOk(next.buckets[id], r.now)
        {
          assert id != r.id ==> id in s.buckets && next.buckets[id] == s.buckets[id];
        }
      }
      RunsAreSound(next, c, requests[1..], r.now, later);
    }
  }

  // ----- how much one scope is allowed in any window-long interval

  predicate Counts(r: Request, outcome: Outcome, id: string, from: int) {
    r.id == id && from <= r.now < from + RATE_WINDOW_MS && outcome.Decided? && outcome.decision.allowed
  }

  function AllowedEvents(requests: seq<Request>, outcomes: seq<Outcome>, id: string, from: int): nat
    requires |outcomes| == |requests|
    decreases |requests|
  {
    if requests == [] then 0
    else (if Counts(requests[0], outcomes[0], id, from) then 1 else 0)
         + AllowedEvents(requests[1..], outcomes[1..], id, from)
  }

  function AllowedBytes(requests: seq<Request>, outcomes: seq<Outcome>, id: string, from: int): nat
    requires |outcomes| == |requests|
    decreases |requests|
  {
    if requests == [] then 0
    else (if Counts(requests[0], outcomes[0], id, from) then requests[0].bytes else 0)
         + AllowedBytes(requests[1..], outcomes[1..], id, from)
  }

  /** What has been allowed in the interval so far fits the windows that meet the interval. */
  predicate Fits(b: Bucket, limits: Limits, from: int, events: nat, bytes: nat) {
    && b.events <= limits.events && b.bytes <= limits.bytes
    && (b.lastSeenAt < from ==> events == 0 && bytes == 0)
    && (b.windowStartedAt <= from ==> events <= b.events && bytes <= b.bytes)
    && (from < b.windowStartedAt < from + RATE_WINDOW_MS ==>
          events <= limits.events + b.events && bytes <= limits.bytes + b.bytes)
    && events <= 2 * limits.events && bytes <= 2 * limits.bytes
  }

  lemma {:induction false} TwiceTheLimit(u: map<string, Bucket>, requests: seq<Request>, outcomes: seq<Outcome>, now: int,
                                         id: string, limits: Limits, from: int, events: nat, bytes: nat)
    requires |outcomes| == |requests| && outcomes == RunUnbounded(u, requests, outcomes)
    requires Monotone(requests, now) && (forall k | k in u :: BucketOk(u[k], now))
    requires forall k | 0 <= k < |requests| && requests[k].id == id :: requests[k].limits == limits
    requires if id in u then Fits(u[id], limits, from, events, bytes) else events == bytes == 0
    ensures events + AllowedEvents(requests, outcomes, id, from) <= 2 * limits.events
    ensures bytes + AllowedBytes(requests, outcomes, id, from) <= 2 * limits.bytes
    decreases |requests|
  {
    if requests != [] {
      var r := requests[0];
      if outcomes[0].Refused? {
        TwiceTheLimit(u, requests[1..], outcomes[1..], r.now, id, limits, from, events, bytes);
      } else {
        var b := BucketOf(u, r.id, r.now);
        var next := AfterCharge(b, r.limits, r.bytes, r.now);
        var events' := events + (if Counts(r, outcomes[0], id, from) then 1 else 0);
        var bytes' := bytes + (if Counts(r, outcomes[0], id, from) then r.bytes else 0);
        assert outcomes[0] == RunUnbounded(u, requests, outcomes)[0];
        assert outcomes[1..] == RunUnbounded(u[r.id := next], requests[1..], outcomes[1..]);
        if r.id == id {
          assert Fits(next, limits, from, events', bytes');
        }
        TwiceTheLimit(u[r.id := next], requests[1..], outcomes[1..], r.now, id, limits, from, events', bytes');
      }
    }
  }

  /**
   In every run of the bounded map, the charges allowed to one scope in any
   interval of one window's length total at most twice the scope's limits.
   */
  lemma AllowedAtMostTwice(c: Config, requests: seq<Request>, start: int, id: string, limits: Limits, from: int)
    requires c.idleMs >= RATE_WINDOW_MS && Monotone(requests, start)
    requires forall k | 0 <= k < |requests| && requests[k].id == id :: requests[k].limits == limits
    ensures var outcomes := RunBounded(Scopes(map[], start + RATE_WINDOW_MS), c, requests);
      && |outcomes| == |requests|
      && AllowedEvents(requests, outcomes, id, from) <= 2 * limits.events
      && AllowedBytes(requests, outcomes, id, from) <= 2 * limits.bytes
  {
    EvictionIsInvisible(c, requests, start);
    var outcomes := RunBounded(Scopes(map[], start + RATE_WINDOW_MS), c, requests);
    TwiceTheLimit(map[], requests, outcomes, start, id, limits, from, 0, 0);
  }

  /** The factor two is reached: a full charge at the end of one window and at the start of the next. */
  lemma TwiceIsReached(id: string, bytes: nat)
    ensures var limits := Limits(2, bytes);
      var requests := [Request(id, limits, 0, 0), Request(id, limits, bytes, 59_999), Request(id, limits, bytes, 60_000)];
      var outcomes := RunBounded(Scopes(map[], RATE_WINDOW_MS), Config(1, RATE_WINDOW_MS), requests);
      && |outcomes| == 3 && Monotone(requests, 0)
      && AllowedBytes(requests, outcomes, id, 59_999) == 2 * bytes
  {
    var limits := Limits(2, bytes);
    var c := Config(1, RATE_WINDOW_MS);
    var r0, r1, r2 := Request(id, limits, 0, 0), Request(id, limits, bytes, 59_999), Request(id, limits, bytes, 60_000);
    var s0 := Scopes(map[], RATE_WINDOW_MS);
    var s1 := Scopes(map[id := Bucket(0, 1, 0, 0)], RATE_WINDOW_MS);
    var s2 := Scopes(map[id := Bucket(0, 2, bytes, 59_999)], RATE_WINDOW_MS);
    assert AfterConsume(s0, c, id, limits, 0, 0) == s1;
    assert AfterConsume(s1, c, id, limits, bytes, 59_999) == s2;
    assert Prepared(s2, c, id, 60_000).buckets == s2.buckets;
    assert [r0, r1, r2][1..] == [r1, r2] && [r1, r2][1..] == [r2];
    assert Monotone([r2], 59_999) && Monotone([r1, r2], 0);
    assert RunBounded(s2, c, [r2]) == [Decided(Decision(true, 60_000))];
    assert RunBounded(s1, c, [r1, r2]) == [Decided(Decision(true, 1)), Decided(Decision(true, 60_000))];
    var outcomes := [Decided(Decision(true, 60_000)), Decided(Decision(true, 1)), Decided(Decision(true, 60_000))];
    assert RunBounded(s0, c, [r0, r1, r2]) == outcomes;
    assert outcomes[1..] == [outcomes[1], outcomes[2]] && outcomes[1..][1..] == [outcomes[2]];
    assert AllowedBytes([r2], outcomes[1..][1..], id, 59_999) == bytes;
    assert AllowedBytes([r1, r2], outcomes[1..], id, 59_999) == 2 * bytes;
  }
}
