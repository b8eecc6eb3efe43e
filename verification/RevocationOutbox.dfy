/**
 The durable outbox of LiveKit rooms that still have to be deleted: one row per
 room name, re-enqueued in place with a growing generation, and removed or
 deferred only by a caller that still holds the generation it selected.
 */
module RevocationOutbox {

  const BATCH_SIZE := 16
  const MAX_ATTEMPTS := 30
  const BASE_BACKOFF_MS := 5_000
  const MAX_BACKOFF_MS := 15 * 60 * 1_000
  const ROW_CONCURRENCY := 4

  type RoomName = string

  datatype Row = Row(generation: nat, enqueuedAt: int, nextAttemptAt: int, attempts: nat, failed: bool)

  type Rows = map<RoomName, Row>

  /** What the batch query reads of a row; kept until the row is settled. */
  datatype Selected = Selected(name: RoomName, generation: nat, attempts: nat)

  /** The answer of `deleteRoom`; a missing room counts as deleted. */
  datatype RpcAnswer = Deleted | NotFound | Failed

  function AfterEnqueue(rows: Rows, name: RoomName, now: int): Rows {
    var generation := if name in rows then rows[name].generation + 1 else 1;
    rows[name := Row(generation, now, now, 0, false)]
  }

  predicate Holds(rows: Rows, row: Selected) {
    row.name in rows && rows[row.name].generation == row.generation
  }

  /** Compare-and-delete on (name, generation). */
  function AfterDelete(rows: Rows, row: Selected): Rows {
    if Holds(rows, row) then rows - {row.name} else rows
  }

  /** Compare-and-defer on (name, generation). */
  function AfterDefer(rows: Rows, row: Selected, clock: int): Rows {
    if Holds(rows, row)
    then rows[row.name := rows[row.name].(
             attempts := if row.attempts + 1 < MAX_ATTEMPTS then row.attempts + 1 else MAX_ATTEMPTS,
             nextAttemptAt := clock + RetryDelayMs(row.attempts),
             failed := true)]
    else rows
  }

  function Pow2(n: nat): nat {
    if n == 0 then 1 else 2 * Pow2(n - 1)
  }

  function RetryDelayMs(attempts: nat): nat {
    var delay := BASE_BACKOFF_MS * Pow2(if attempts < 20 then attempts else 20);
    if delay < MAX_BACKOFF_MS then delay else MAX_BACKOFF_MS
  }

  lemma {:induction false} Pow2Grows(a: nat, b: nat)
    requires a <= b
    ensures 1 <= Pow2(a) <= Pow2(b)
    decreases b
  {
    if a < b {
      Pow2Grows(a, b - 1);
    } else if a > 0 {
      Pow2Grows(a - 1, b - 1);
    }
  }

  /** The back-off never shrinks, stays in its bounds, and is saturated from the eighth retry on. */
  lemma RetryDelayGrows(a: nat, b: nat)
    requires a <= b
    ensures BASE_BACKOFF_MS <= RetryDelayMs(a) <= RetryDelayMs(b) <= MAX_BACKOFF_MS
    ensures RetryDelayMs(a) == MAX_BACKOFF_MS <==> a >= 8
  {
    Pow2Grows(if a < 20 then a else 20, if b < 20 then b else 20);
    assert Pow2(4) == 16;
    assert Pow2(7) == 128;
    assert Pow2(8) == 256;
    if a < 8 {
      Pow2Grows(a, 7);
    } else {
      Pow2Grows(8, if a < 20 then a else 20);
    }
  }

  /** An enqueued name is due from the moment on, as if nothing had failed, and under a generation it never had. */
  lemma EnqueuedIsDue(rows: Rows, name: RoomName, now: int, at: int)
    ensures var next := AfterEnqueue(rows, name, now);
      && (Due(next, name, at) <==> now <= at) && next[name].attempts == 0 && !next[name].failed
      && next[name].generation == (if name in rows then rows[name].generation + 1 else 1)
      && next - {name} == rows - {name}
  {
  }

  /** The delays: five seconds, doubled by every failure, and a quarter of an hour from the ninth on. */
  lemma RetryDelays()
    ensures RetryDelayMs(0) == 5_000 && RetryDelayMs(1) == 10_000 && RetryDelayMs(2) == 20_000 && RetryDelayMs(3) == 40_000
    ensures RetryDelayMs(4) == 80_000 && RetryDelayMs(5) == 160_000 && RetryDelayMs(6) == 320_000 && RetryDelayMs(7) == 640_000
    ensures forall attempts | attempts >= 8 :: RetryDelayMs(attempts) == 900_000
  {
    assert Pow2(4) == 16;
    assert Pow2(7) == 128;
    forall attempts | attempts >= 8
      ensures RetryDelayMs(attempts) == 900_000
    {
      RetryDelayGrows(8, attempts);
    }
  }

  /** A row selected and deferred once for each clock reading, with no enqueue of its name in between. */
  function AfterFailures(rows: Rows, name: RoomName, clocks: seq<int>): (next: Rows)
    requires name in rows
    ensures name in next
    decreases |clocks|
  {
    if clocks == [] then rows
    else AfterFailures(AfterDefer(rows, Selected(name, rows[name].generation, rows[name].attempts), clocks[0]), name, clocks[1..])
  }

  /** Each failure counts as an attempt, up to thirty, and the next attempt waits for the delay of those before it. */
  lemma {:induction false} FailuresBackOff(rows: Rows, name: RoomName, clocks: seq<int>)
    requires name in rows && rows[name].attempts <= 30 && clocks != []
    ensures var row := AfterFailures(rows, name, clocks)[name]; var before := rows[name].attempts + |clocks| - 1;
      && row.attempts == (if before + 1 < 30 then before + 1 else 30) && row.failed
      && row.nextAttemptAt == clocks[|clocks| - 1] + RetryDelayMs(before)
      && row.generation == rows[name].generation && row.enqueuedAt == rows[name].enqueuedAt
    decreases |clocks|
  {
    var attempts := rows[name].attempts;
    var next := AfterDefer(rows, Selected(name, rows[name].generation, attempts), clocks[0]);
    if |clocks| == 1 {
      assert clocks[1..] == [];
    } else {
      FailuresBackOff(next, name, clocks[1..]);
      if attempts == 30 {
        RetryDelays();
      }
    }
  }

  predicate IsSpace(c: char) {
    var code := c as int;
    9 <= code <= 13 || 0x2000 <= code <= 0x200a
    || code in {0x20, 0xa0, 0x1680, 0x2028, 0x2029, 0x202f, 0x205f, 0x3000, 0xfeff}
  }

  function TrimStart(s: string): string {
    if s != "" && IsSpace(s[0]) then TrimStart(s[1..]) else s
  }

  function Trim(s: string): string {
    TrimEnd(TrimStart(s))
  }

  function TrimEnd(s: string): string {
    if s != "" && IsSpace(s[|s| - 1]) then TrimEnd(s[..|s| - 1]) else s
  }

  predicate ValidName(name: string) {
    1 <= |name| <= 255
  }

  /** `ORDER BY next_attempt_at, enqueued_at`: a may be selected before b. */
  predicate NotAfter(a: Row, b: Row) {
    a.nextAttemptAt < b.nextAttemptAt
    || (a.nextAttemptAt == b.nextAttemptAt && a.enqueuedAt <= b.enqueuedAt)
  }

  predicate Due(rows: Rows, name: RoomName, now: int) {
    name in rows && rows[name].nextAttemptAt <= now
  }

  predicate Picks(rows: Rows, row: Selected, now: int) {
    && Due(rows, row.name, now)
    && rows[row.name].generation == row.generation
    && rows[row.name].attempts == row.attempts
  }

  /** The result of the batch query: the `limit` most overdue rows, each once. */
  ghost predicate IsDueBatch(rows: Rows, now: int, limit: nat, batch: seq<Selected>) {
    && |batch| <= limit
    && (forall i | 0 <= i < |batch| :: Picks(rows, batch[i], now))
    && (forall i, j | 0 <= i < j < |batch| ::
          batch[i].name != batch[j].name && NotAfter(rows[batch[i].name], rows[batch[j].name]))
    && (forall name | Due(rows, name, now) ::
          (exists i :: 0 <= i < |batch| && batch[i].name == name)
          || (|batch| == limit && forall i | 0 <= i < |batch| :: NotAfter(rows[batch[i].name], rows[name])))
  }

  class Outbox {
    var rows: Rows

    constructor ()
      ensures rows == map[]
    {
      rows := map[];
    }

    method Enqueue(target: string, now: int) returns (accepted: bool)
      modifies this
      ensures accepted == ValidName(Trim(target))
      ensures rows == if accepted then AfterEnqueue(old(rows), Trim(target), now) else old(rows)
    {
      var name := Trim(target);
      if |name| < 1 || |name| > 255 {
        return false;
      }
      if name in rows {
        rows := rows[name := Row(rows[name].generation + 1, now, now, 0, false)];
      } else {
        rows := rows[name := Row(1, now, now, 0, false)];
      }
      accepted := true;
    }

    /** The part of `processRow` after `deleteRoom` has answered. */
    method SettleRow(row: Selected, answer: RpcAnswer, clock: int) returns (acknowledged: nat, deferred: nat)
      modifies this
      ensures rows == if answer.Failed? then AfterDefer(old(rows), row, clock) else AfterDelete(old(rows), row)
      ensures acknowledged == (if !answer.Failed? && Holds(old(rows), row) then 1 else 0)
      ensures deferred == (if answer.Failed? && Holds(old(rows), row) then 1 else 0)
    {
      acknowledged, deferred := 0, 0;
      if !answer.Failed? {
        if row.name in rows && rows[row.name].generation == row.generation {
          rows := map name | name in rows && name != row.name :: rows[name];
          acknowledged := 1;
        }
        return;
      }
      var attempts := if row.attempts + 1 < MAX_ATTEMPTS then row.attempts + 1 else MAX_ATTEMPTS;
      var nextAttemptAt := clock + RetryDelayMs(row.attempts);
      if row.name in rows && rows[row.name].generation == row.generation {
        var current := rows[row.name];
        rows := rows[row.name := Row(current.generation, current.enqueuedAt, nextAttemptAt, attempts, true)];
        deferred := 1;
      }
    }
  }
}
