/**
 Stored attempt counters for logging in and activating accounts: fixed windows that a
 batched cleanup deletes some time after they have ended. Times are milliseconds.
 */
module AuthRateLimit {
  import opened Numbers
  import opened Wrappers

  const RETENTION_WINDOWS := 2
  const MAX_COUNT := 1_000_000

  datatype Scope = LoginIp | LoginAccount | ActivationIp | ActivationToken

  datatype Policy = Policy(limit: int, windowMs: int)

  datatype Key = Key(scope: Scope, subjectHash: string)

  datatype Row = Row(windowStartedAt: int, attemptCount: int, expiresAt: int)

  type Rows = map<Key, Row>

  datatype Answer = Answer(allowed: bool, limit: int, remaining: int, retryAfterMs: int)

  datatype Refusal = InvalidPolicy | MissingSubject | InvalidClock

  predicate ValidPolicy(p: Policy) {
    0 < p.limit < MAX_COUNT && 0 < p.windowMs <= MAX_SAFE_INTEGER
  }

  /** The policies in use. */
  function StandardPolicy(scope: Scope): (p: Policy)
    ensures ValidPolicy(p)
  {
    match scope
    case LoginIp => Policy(30, 15 * 60 * 1_000)
    case LoginAccount => Policy(15, 15 * 60 * 1_000)
    case ActivationIp => Policy(30, 15 * 60 * 1_000)
    case ActivationToken => Policy(10, 15 * 60 * 1_000)
  }

  // ----- one attempt, as a function of the rows

  /** The rows a cleanup deletes: expired ones, oldest expiry first, at most a batch. */
  ghost predicate IsCleanup(rows: Rows, now: int, batch: nat, victims: set<Key>) {
    && victims <= rows.Keys && |victims| <= batch
    && (forall k | k in victims :: rows[k].expiresAt <= now)
    && (forall k | k in rows && rows[k].expiresAt <= now && k !in victims ::
          |victims| == batch && forall v | v in victims :: rows[v].expiresAt <= rows[k].expiresAt)
  }

  predicate Ended(row: Row, p: Policy, now: int) {
    row.windowStartedAt + p.windowMs <= now
  }

  predicate StartsWindow(rows: Rows, k: Key, p: Policy, now: int) {
    k !in rows || Ended(rows[k], p, now)
  }

  /** No room for a new row. */
  predicate Full(rows: Rows, k: Key, maxBuckets: nat) {
    k !in rows && |rows| >= maxBuckets
  }

  /** What the attempt stores when there is room. */
  function Counted(rows: Rows, k: Key, p: Policy, now: int): Row {
    if StartsWindow(rows, k, p, now) then Row(now, 1, now + p.windowMs * RETENTION_WINDOWS)
    else rows[k].(attemptCount := Min(rows[k].attemptCount + 1, p.limit + 1))
  }

  function AnswerFor(row: Row, p: Policy, now: int): Answer {
    var left := Max(1, row.windowStartedAt + p.windowMs - now);
    if row.attemptCount > p.limit then Answer(false, p.limit, 0, left)
    else Answer(true, p.limit, p.limit - row.attemptCount, left)
  }

  function AfterAttempt(rows: Rows, k: Key, p: Policy, now: int, maxBuckets: nat): Rows {
    if Full(rows, k, maxBuckets) then rows else rows[k := Counted(rows, k, p, now)]
  }

  function AnswerTo(rows: Rows, k: Key, p: Policy, now: int, maxBuckets: nat): Answer {
    if Full(rows, k, maxBuckets) then Answer(false, p.limit, 0, p.windowMs) else AnswerFor(Counted(rows, k, p, now), p, now)
  }

  class AuthRateLimitStore {
    const subjectHash: (Scope, string) -> string
    const maxBuckets: nat
    const cleanupBatch: nat
    var rows: Rows

    constructor (subjectHash: (Scope, string) -> string, maxBuckets: nat, cleanupBatch: nat)
      ensures rows == map[] && this.subjectHash == subjectHash
      ensures this.maxBuckets == maxBuckets && this.cleanupBatch == cleanupBatch
    {
      this.subjectHash, this.maxBuckets, this.cleanupBatch := subjectHash, maxBuckets, cleanupBatch;
      rows := map[];
    }

    /** The body of the transaction once the cleanup is done. */
    method Count(k: Key, policy: Policy, now: int) returns (answer: Answer)
      requires ValidPolicy(policy)
      modifies this`rows
      ensures answer == AnswerTo(old(rows), k, policy, now, maxBuckets)
      ensures rows == AfterAttempt(old(rows), k, policy, now, maxBuckets)
    {
      if k !in rows || rows[k].windowStartedAt + policy.windowMs <= now {
        if k !in rows && |rows| >= maxBuckets {
          return Answer(false, policy.limit, 0, policy.windowMs);
        }
        rows := rows[k := Row(now, 1, now + policy.windowMs * RETENTION_WINDOWS)];
        return Answer(true, policy.limit, policy.limit - 1, policy.windowMs);
      }
      var row := rows[k];
      var windowEndsAt := row.windowStartedAt + policy.windowMs;
      var nextCount := Min(row.attemptCount + 1, policy.limit + 1);
      rows := rows[k := row.(attemptCount := nextCount)];
      var retryAfterMs := Max(1, windowEndsAt - now);
      if nextCount > policy.limit {
        return Answer(false, policy.limit, 0, retryAfterMs);
      }
      return Answer(true, policy.limit, policy.limit - nextCount, retryAfterMs);
    }

    /** `victims` are the rows the delete statement picks. */
    method Consume(scope: Scope, subject: string, policy: Policy, now: int, victims: set<Key>) returns (r: Result<Answer, Refusal>)
      requires IsCleanup(rows, now, cleanupBatch, victims)
      modifies this`rows
      ensures r == Err(InvalidPolicy) <==> !ValidPolicy(policy)
      ensures r == Err(MissingSubject) <==> ValidPolicy(policy) && subject == ""
      ensures r == Err(InvalidClock) <==> ValidPolicy(policy) && subject != "" && !(0 <= now <= MAX_SAFE_INTEGER)
      ensures r.Err? ==> rows == old(rows)
      ensures r.Ok? ==>
        var k := Key(scope, subjectHash(scope, subject)); var cleaned := old(rows) - victims;
        && r.value == AnswerTo(cleaned, k, policy, now, maxBuckets)
        && rows == AfterAttempt(cleaned, k, policy, now, maxBuckets)
    {
      if !ValidPolicy(policy) {
        return Err(InvalidPolicy);
      }
      if subject == "" {
        return Err(MissingSubject);
      }
      if !(0 <= now <= MAX_SAFE_INTEGER) {
        return Err(InvalidClock);
      }
      rows := rows - victims;
      var answer := Count(Key(scope, subjectHash(scope, subject)), policy, now);
      return Ok(answer);
    }

    method Reset(scope: Scope, subject: string)
      modifies this`rows
      ensures rows == if subject == "" then old(rows) else old(rows) - {Key(scope, subjectHash(scope, subject))}
    {
      if subject == "" {
        return;
      }
      rows := rows - {Key(scope, subjectHash(scope, subject))};
    }
  }

  // ----- how long a denial lasts

  /**
     After a denial, and nothing but cleanups and later attempts of others, the next attempt that finds
     room is allowed exactly when the announced time has passed.
   */
  lemma DenialLastsExactly(rows: Rows, k: Key, p: Policy, now: int, maxBuckets: nat, victims: set<Key>, later: int)
    requires ValidPolicy(p) && !Full(rows, k, maxBuckets) && !AnswerTo(rows, k, p, now, maxBuckets).allowed && now <= later
    requires k in rows && rows[k].expiresAt == rows[k].windowStartedAt + p.windowMs * RETENTION_WINDOWS
    requires var next := AfterAttempt(rows, k, p, now, maxBuckets);
             victims <= next.Keys && forall v | v in victims :: next[v].expiresAt <= later
    requires !Full(AfterAttempt(rows, k, p, now, maxBuckets) - victims, k, maxBuckets)
    ensures AnswerTo(AfterAttempt(rows, k, p, now, maxBuckets) - victims, k, p, later, maxBuckets).allowed
            <==> now + AnswerTo(rows, k, p, now, maxBuckets).retryAfterMs <= later
  {
  }

  /**
     The remaining attempts of an answer are those the subject still has in the window: with nothing in between, the
     next attempt before the announced time is allowed exactly when some remain, and then leaves one less.
   */
  lemma RemainingIsExact(rows: Rows, k: Key, p: Policy, now: int, maxBuckets: nat, later: int)
    requires ValidPolicy(p) && AnswerTo(rows, k, p, now, maxBuckets).allowed
    requires now <= later < now + AnswerTo(rows, k, p, now, maxBuckets).retryAfterMs
    requires k in rows ==> rows[k].attemptCount >= 0
    ensures var first := AnswerTo(rows, k, p, now, maxBuckets);
      var next := AnswerTo(AfterAttempt(rows, k, p, now, maxBuckets), k, p, later, maxBuckets);
      && first.limit == next.limit == p.limit && 0 <= first.remaining < p.limit
      && later + next.retryAfterMs == now + first.retryAfterMs
      && (next.allowed <==> first.remaining > 0) && (next.allowed ==> next.remaining == first.remaining - 1)
  {
  }

  /** The first attempt of a window leaves all but one. */
  lemma FirstAttempt(rows: Rows, k: Key, p: Policy, now: int, maxBuckets: nat)
    requires ValidPolicy(p) && !Full(rows, k, maxBuckets) && StartsWindow(rows, k, p, now)
    ensures AnswerTo(rows, k, p, now, maxBuckets) == Answer(true, p.limit, p.limit - 1, p.windowMs)
  {
  }

  // ----- runs

  type Policies = Scope -> Policy

  ghost predicate ValidPolicies(policies: Policies) {
    forall scope :: ValidPolicy(policies(scope))
  }

  datatype Op = Attempt(key: Key, now: int, victims: set<Key>) | Reset(key: Key)

  datatype Outcome = NoRoom | Decided(answer: Answer) | WasReset

  /** The clock never runs backwards, and each attempt cleans up as the store does. */
  ghost predicate Legal(rows: Rows, policies: Policies, ops: seq<Op>, now: int, maxBuckets: nat, batch: nat)
    decreases |ops|
  {
    ops == [] ||
    match ops[0]
    case Reset(k) => Legal(rows - {k}, policies, ops[1..], now, maxBuckets, batch)
    case Attempt(k, at, victims) =>
      && now <= at && IsCleanup(rows, at, batch, victims)
      && Legal(AfterAttempt(rows - victims, k, policies(k.scope), at, maxBuckets), policies, ops[1..], at, maxBuckets, batch)
  }

  function RunStore(rows: Rows, policies: Policies, ops: seq<Op>, maxBuckets: nat): (outcomes: seq<Outcome>)
    ensures |outcomes| == |ops|
    decreases |ops|
  {
    if ops == [] then [] else
      match ops[0]
      case Reset(k) => [WasReset] + RunStore(rows - {k}, policies, ops[1..], maxBuckets)
      case Attempt(k, at, victims) =>
        [OutcomeOf(rows - victims, policies, k, at, maxBuckets)]
        + RunStore(AfterAttempt(rows - victims, k, policies(k.scope), at, maxBuckets), policies, ops[1..], maxBuckets)
  }

  function OutcomeOf(rows: Rows, policies: Policies, k: Key, at: int, maxBuckets: nat): Outcome {
    if Full(rows, k, maxBuckets) then NoRoom else Decided(AnswerTo(rows, k, policies(k.scope), at, maxBuckets))
  }

  /** Counters that are never cleaned up and have room for everyone, fed only the attempts that found room. */
  function RunForever(u: Rows, policies: Policies, ops: seq<Op>, outcomes: seq<Outcome>): seq<Outcome>
    requires |outcomes| == |ops|
    decreases |ops|
  {
    if ops == [] then [] else
      match ops[0]
      case Reset(k) => [WasReset] + RunForever(u - {k}, policies, ops[1..], outcomes[1..])
      case Attempt(k, at, _) =>
        if outcomes[0].NoRoom? then [NoRoom] + RunForever(u, policies, ops[1..], outcomes[1..])
        else
          var row := Counted(u, k, policies(k.scope), at);
          [Decided(AnswerFor(row, policies(k.scope), at))] + RunForever(u[k := row], policies, ops[1..], outcomes[1..])
  }

  predicate RowOk(row: Row, p: Policy, now: int) {
    && row.windowStartedAt <= now && 1 <= row.attemptCount <= p.limit + 1
    && row.expiresAt == row.windowStartedAt + p.windowMs * RETENTION_WINDOWS
  }

  /** Stored rows agree; those cleaned up belong to windows that have ended. */
  ghost predicate Simulates(rows: Rows, u: Rows, policies: Policies, now: int) {
    && (forall k | k in u :: RowOk(u[k], policies(k.scope), now))
    && (forall k | k in rows :: k in u && u[k] == rows[k])
    && (forall k | k in u && k !in rows :: Ended(u[k], policies(k.scope), now))
  }

  lemma CleanupSimulates(rows: Rows, u: Rows, policies: Policies, now: int, at: int, victims: set<Key>)
    requires ValidPolicies(policies) && Simulates(rows, u, policies, now) && now <= at
    requires victims <= rows.Keys && forall v | v in victims :: rows[v].expiresAt <= at
    ensures Simulates(rows - victims, u, policies, at)
  {
  }

  lemma AttemptSimulates(rows: Rows, u: Rows, policies: Policies, k: Key, p: Policy, at: int, maxBuckets: nat)
    requires p == policies(k.scope) && ValidPolicy(p) && Simulates(rows, u, policies, at) && !Full(rows, k, maxBuckets)
    ensures AnswerTo(rows, k, p, at, maxBuckets) == AnswerFor(Counted(u, k, p, at), p, at)
    ensures Simulates(AfterAttempt(rows, k, p, at, maxBuckets), u[k := Counted(u, k, p, at)], policies, at)
  {
  }

  /** The reference counters after an attempt that was answered like this. */
  function Followed(u: Rows, policies: Policies, k: Key, at: int, outcome: Outcome): Rows {
    if outcome.NoRoom? then u else u[k := Counted(u, k, policies(k.scope), at)]
  }

  lemma AttemptStep(rows: Rows, u: Rows, policies: Policies, now: int, k: Key, at: int, victims: set<Key>, maxBuckets: nat)
    requires ValidPolicies(policies) && Simulates(rows, u, policies, now) && now <= at
    requires victims <= rows.Keys && forall v | v in victims :: rows[v].expiresAt <= at
    ensures var outcome := OutcomeOf(rows - victims, policies, k, at, maxBuckets);
      && (!outcome.NoRoom? ==> outcome == Decided(AnswerFor(Counted(u, k, policies(k.scope), at), policies(k.scope), at)))
      && Simulates(AfterAttempt(rows - victims, k, policies(k.scope), at, maxBuckets), Followed(u, policies, k, at, outcome), policies, at)
  {
    CleanupSimulates(rows, u, policies, now, at, victims);
    assert ValidPolicy(policies(k.scope));
    if !Full(rows - victims, k, maxBuckets) {
      AttemptSimulates(rows - victims, u, policies, k, policies(k.scope), at, maxBuckets);
    }
  }

  lemma {:induction false} StoreRefines(rows: Rows, u: Rows, policies: Policies, ops: seq<Op>, now: int, maxBuckets: nat, batch: nat)
    requires ValidPolicies(policies) && Legal(rows, policies, ops, now, maxBuckets, batch) && Simulates(rows, u, policies, now)
    ensures var outcomes := RunStore(rows, policies, ops, maxBuckets); outcomes == RunForever(u, policies, ops, outcomes)
    decreases |ops|
  {
    if ops != [] {
      var rest := ops[1..];
      match ops[0]
      case Reset(k) =>
        StoreRefines(rows - {k}, u - {k}, policies, rest, now, maxBuckets, batch);
        assert RunStore(rows, policies, ops, maxBuckets)[1..] == RunStore(rows - {k}, policies, rest, maxBuckets);
      case Attempt(k, at, victims) =>
        var next := AfterAttempt(rows - victims, k, policies(k.scope), at, maxBuckets);
        var outcome := OutcomeOf(rows - victims, policies, k, at, maxBuckets);
        AttemptStep(rows, u, policies, now, k, at, victims, maxBuckets);
        StoreRefines(next, Followed(u, policies, k, at, outcome), policies, rest, at, maxBuckets, batch);
        Continued(u, policies, ops, outcome, RunStore(next, policies, rest, maxBuckets));
    }
  }

  lemma Continued(u: Rows, policies: Policies, ops: seq<Op>, outcome: Outcome, later: seq<Outcome>)
    requires ops != [] && ops[0].Attempt? && |later| == |ops| - 1
    requires var k := ops[0].key;
      && !outcome.WasReset? && later == RunForever(Followed(u, policies, k, ops[0].now, outcome), policies, ops[1..], later)
      && (!outcome.NoRoom? ==>
            outcome == Decided(AnswerFor(Counted(u, k, policies(k.scope), ops[0].now), policies(k.scope), ops[0].now)))
    ensures [outcome] + later == RunForever(u, policies, ops, [outcome] + later)
  {
  }

  /**
     Cleaning up never changes a decision: in every run with a clock that does not go back, each attempt that
     finds room is answered as by counters that are never deleted.
   */
  lemma CleanupIsInvisible(policies: Policies, ops: seq<Op>, start: int, maxBuckets: nat, batch: nat)
    requires ValidPolicies(policies) && Legal(map[], policies, ops, start, maxBuckets, batch)
    ensures var outcomes := RunStore(map[], policies, ops, maxBuckets); outcomes == RunForever(map[], policies, ops, outcomes)
  {
    StoreRefines(map[], map[], policies, ops, start, maxBuckets, batch);
  }

  /** There are never more rows than allowed. */
  lemma RowsStayBounded(rows: Rows, victims: set<Key>, k: Key, p: Policy, now: int, maxBuckets: nat)
    requires |rows| <= maxBuckets
    ensures |AfterAttempt(rows - victims, k, p, now, maxBuckets)| <= maxBuckets
  {
  }

  // ----- how many attempts get through

  predicate Counts(op: Op, outcome: Outcome, k: Key, from: int, windowMs: int) {
    op.Attempt? && op.key == k && from <= op.now < from + windowMs && outcome.Decided? && outcome.answer.allowed
  }

  function AllowedAttempts(ops: seq<Op>, outcomes: seq<Outcome>, k: Key, from: int, windowMs: int): nat
    requires |outcomes| == |ops|
    decreases |ops|
  {
    if ops == [] then 0
    else (if Counts(ops[0], outcomes[0], k, from, windowMs) then 1 else 0)
         + AllowedAttempts(ops[1..], outcomes[1..], k, from, windowMs)
  }

  /** What has been allowed in the interval so far fits the windows that meet the interval. */
  predicate Fits(row: Row, p: Policy, from: int, allowed: nat) {
    && (Ended(row, p, from) ==> allowed == 0)
    && (row.windowStartedAt <= from ==> allowed <= Min(row.attemptCount, p.limit))
    && (from < row.windowStartedAt < from + p.windowMs ==> allowed <= p.limit + Min(row.attemptCount, p.limit))
    && allowed <= 2 * p.limit
  }

  lemma {:induction false} TwiceTheLimit(u: Rows, policies: Policies, ops: seq<Op>, outcomes: seq<Outcome>, now: int, k: Key, from: int, allowed: nat)
    requires ValidPolicies(policies) && |outcomes| == |ops| && outcomes == RunForever(u, policies, ops, outcomes)
    requires Monotone(ops, now) && (forall j | j in u :: RowOk(u[j], policies(j.scope), now))
    requires forall i | 0 <= i < |ops| :: ops[i] != Reset(k)
    requires if k in u then Fits(u[k], policies(k.scope), from, allowed) else allowed == 0
    ensures allowed + AllowedAttempts(ops, outcomes, k, from, policies(k.scope).windowMs) <= 2 * policies(k.scope).limit
    decreases |ops|
  {
    var p := policies(k.scope);
    assert ValidPolicy(p);
    if ops != [] {
      match ops[0]
      case Reset(j) =>
        assert ops[0] == Reset(j) && j != k;
        assert outcomes[1..] == RunForever(u - {j}, policies, ops[1..], outcomes[1..]);
        TwiceTheLimit(u - {j}, policies, ops[1..], outcomes[1..], now, k, from, allowed);
      case Attempt(j, at, _) =>
        if outcomes[0].NoRoom? {
          assert outcomes[1..] == RunForever(u, policies, ops[1..], outcomes[1..]);
          TwiceTheLimit(u, policies, ops[1..], outcomes[1..], at, k, from, allowed);
        } else {
          assert ValidPolicy(policies(j.scope));
          var row := Counted(u, j, policies(j.scope), at);
          assert outcomes[0] == Decided(AnswerFor(row, policies(j.scope), at));
          assert outcomes[1..] == RunForever(u[j := row], policies, ops[1..], outcomes[1..]);
          var more := allowed + if Counts(ops[0], outcomes[0], k, from, p.windowMs) then 1 else 0;
          if j == k {
            StillFits(u, k, p, at, from, allowed, more);
          }
          TwiceTheLimit(u[j := row], policies, ops[1..], outcomes[1..], at, k, from, more);
        }
    }
  }

  lemma StillFits(u: Rows, k: Key, p: Policy, at: int, from: int, allowed: nat, more: nat)
    requires ValidPolicy(p) && (k in u ==> RowOk(u[k], p, at))
    requires if k in u then Fits(u[k], p, from, allowed) else allowed == 0
    requires var row := Counted(u, k, p, at);
      more == allowed + if from <= at < from + p.windowMs && AnswerFor(row, p, at).allowed then 1 else 0
    ensures Fits(Counted(u, k, p, at), p, from, more)
  {
  }

  ghost predicate Monotone(ops: seq<Op>, now: int)
    decreases |ops|
  {
    ops == [] || if ops[0].Reset? then Monotone(ops[1..], now) else now <= ops[0].now && Monotone(ops[1..], ops[0].now)
  }

  lemma {:induction false} LegalIsMonotone(rows: Rows, policies: Policies, ops: seq<Op>, now: int, maxBuckets: nat, batch: nat)
    requires Legal(rows, policies, ops, now, maxBuckets, batch)
    ensures Monotone(ops, now)
    decreases |ops|
  {
    if ops != [] {
      match ops[0]
      case Reset(k) => LegalIsMonotone(rows - {k}, policies, ops[1..], now, maxBuckets, batch);
      case Attempt(k, at, victims) =>
        LegalIsMonotone(AfterAttempt(rows - victims, k, policies(k.scope), at, maxBuckets), policies, ops[1..], at, maxBuckets, batch);
    }
  }

  /** Without a reset of the subject, any interval of one window's length lets at most twice the limit through. */
  lemma AllowedAtMostTwice(policies: Policies, ops: seq<Op>, start: int, maxBuckets: nat, batch: nat, k: Key, from: int)
    requires ValidPolicies(policies) && Legal(map[], policies, ops, start, maxBuckets, batch)
    requires forall i | 0 <= i < |ops| :: ops[i] != Reset(k)
    ensures AllowedAttempts(ops, RunStore(map[], policies, ops, maxBuckets), k, from, policies(k.scope).windowMs)
            <= 2 * policies(k.scope).limit
  {
    CleanupIsInvisible(policies, ops, start, maxBuckets, batch);
    LegalIsMonotone(map[], policies, ops, start, maxBuckets, batch);
    TwiceTheLimit(map[], policies, ops, RunStore(map[], policies, ops, maxBuckets), start, k, from, 0);
  }

  /** In any quarter of an hour: 60 attempts from one address, 30 on one account, 20 with one activation token. */
  lemma AttemptsPerQuarterHour(ops: seq<Op>, start: int, maxBuckets: nat, batch: nat, k: Key, from: int)
    requires Legal(map[], StandardPolicy, ops, start, maxBuckets, batch) && forall i | 0 <= i < |ops| :: ops[i] != Reset(k)
    ensures AllowedAttempts(ops, RunStore(map[], StandardPolicy, ops, maxBuckets), k, from, 15 * 60 * 1_000)
            <= match k.scope case LoginAccount => 30 case ActivationToken => 20 case _ => 60
  {
    AllowedAtMostTwice(StandardPolicy, ops, start, maxBuckets, batch, k, from);
  }
}
