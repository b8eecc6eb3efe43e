/**
 The worker pool that drains the outbox, as a state machine over interleaved
 steps: enqueues may happen between any two steps of a batch, and the steps of
 a batch's workers interleave freely. A row write may throw in a worker whose
 call has answered; that ends the worker and leaves the outbox as it was.
 Every step is recorded in `log`.
 */
module RevocationPool {
  import opened RevocationOutbox

  datatype Worker =
    | Idle
    | Calling(index: nat, startedAt: nat)
    | Answered(index: nat, startedAt: nat, answeredAt: nat, answer: RpcAnswer)
    | Ended(index: nat)

  datatype Outcome = Outcome(index: nat, acknowledged: nat, deferred: nat)

  datatype Batch = Batch(selected: seq<Selected>, selectedAt: nat, cursor: nat,
                         workers: seq<Worker>, outcomes: seq<Outcome>)

  datatype Event =
    | Enqueued(name: RoomName)
    | BatchSelected(batch: nat)
    | RpcStarted(batch: nat, index: nat, name: RoomName)
    | RpcAnswered(batch: nat, index: nat, name: RoomName, answer: RpcAnswer)
    | RowAcknowledged(batch: nat, index: nat, name: RoomName)
    | RowKept(batch: nat, index: nat, name: RoomName)
    | RowWriteFailed(batch: nat, index: nat, name: RoomName)
    | BatchFinished(batch: nat)

  datatype Pool = Pool(rows: Rows, batches: map<nat, Batch>, log: seq<Event>)

  datatype Op =
    | Enqueue(name: RoomName, now: int)
    | Select(batch: nat, selected: seq<Selected>, now: int, limit: nat)
    | StartRpc(batch: nat, worker: nat)
    | AnswerRpc(batch: nat, worker: nat, answer: RpcAnswer)
    | SettleRow(batch: nat, worker: nat, clock: int)
    | ThrowRow(batch: nat, worker: nat)
    | FinishBatch(batch: nat)

  // ----- steps

  ghost predicate Enabled(p: Pool, op: Op) {
    match op
    case Enqueue(_, _) => true
    case Select(b, selected, now, limit) =>
      b !in p.batches && 1 <= limit <= BATCH_SIZE && IsDueBatch(p.rows, now, limit, selected)
    case StartRpc(b, w) =>
      b in p.batches && w < |p.batches[b].workers| && p.batches[b].workers[w].Idle?
      && p.batches[b].cursor < |p.batches[b].selected|
    case AnswerRpc(b, w, _) =>
      b in p.batches && w < |p.batches[b].workers| && p.batches[b].workers[w].Calling?
      && p.batches[b].workers[w].index < |p.batches[b].selected|
    case SettleRow(b, w, _) =>
      b in p.batches && w < |p.batches[b].workers| && p.batches[b].workers[w].Answered?
      && p.batches[b].workers[w].index < |p.batches[b].selected|
    case ThrowRow(b, w) =>
      b in p.batches && w < |p.batches[b].workers| && p.batches[b].workers[w].Answered?
      && p.batches[b].workers[w].index < |p.batches[b].selected|
    case FinishBatch(b) =>
      b in p.batches && p.batches[b].cursor == |p.batches[b].selected|
      && forall w | 0 <= w < |p.batches[b].workers| :: p.batches[b].workers[w].Idle?
  }

  function NewBatch(selected: seq<Selected>, selectedAt: nat): Batch {
    var workerCount := if |selected| < ROW_CONCURRENCY then |selected| else ROW_CONCURRENCY;
    Batch(selected, selectedAt, 0, seq(workerCount, _ => Idle), [])
  }

  ghost function Apply(p: Pool, op: Op): Pool
    requires Enabled(p, op)
  {
    match op
    case Enqueue(name, now) =>
      p.(rows := AfterEnqueue(p.rows, name, now), log := p.log + [Enqueued(name)])
    case Select(b, selected, _, _) =>
      p.(batches := p.batches[b := NewBatch(selected, |p.log|)], log := p.log + [BatchSelected(b)])
    case StartRpc(b, w) =>
      var batch := p.batches[b];
      var i := batch.cursor;
      p.(batches := p.batches[b := batch.(cursor := i + 1, workers := batch.workers[w := Calling(i, |p.log|)])],
         log := p.log + [RpcStarted(b, i, batch.selected[i].name)])
    case AnswerRpc(b, w, answer) =>
      var batch := p.batches[b];
      var Calling(i, startedAt) := batch.workers[w];
      p.(batches := p.batches[b := batch.(workers := batch.workers[w := Answered(i, startedAt, |p.log|, answer)])],
         log := p.log + [RpcAnswered(b, i, batch.selected[i].name, answer)])
    case SettleRow(b, w, clock) =>
      var batch := p.batches[b];
      var Answered(i, _, _, answer) := batch.workers[w];
      var row := batch.selected[i];
      var held := if Holds(p.rows, row) then 1 else 0;
      var outcome := if answer.Failed? then Outcome(i, 0, held) else Outcome(i, held, 0);
      p.(rows := if answer.Failed? then AfterDefer(p.rows, row, clock) else AfterDelete(p.rows, row),
         batches := p.batches[b := batch.(workers := batch.workers[w := Idle], outcomes := batch.outcomes + [outcome])],
         log := p.log + [if outcome.acknowledged == 1 then RowAcknowledged(b, i, row.name) else RowKept(b, i, row.name)])
    case ThrowRow(b, w) =>
      var batch := p.batches[b];
      var i := batch.workers[w].index;
      p.(batches := p.batches[b := batch.(workers := batch.workers[w := Ended(i)])],
         log := p.log + [RowWriteFailed(b, i, batch.selected[i].name)])
    case FinishBatch(b) =>
      p.(batches := p.batches - {b}, log := p.log + [BatchFinished(b)])
  }

  ghost predicate Legal(p: Pool, ops: seq<Op>)
    decreases |ops|
  {
    ops == [] || (Enabled(p, ops[0]) && Legal(Apply(p, ops[0]), ops[1..]))
  }

  ghost function Exec(p: Pool, ops: seq<Op>): Pool
    requires Legal(p, ops)
    decreases |ops|
  {
    if ops == [] then p else Exec(Apply(p, ops[0]), ops[1..])
  }

  // ----- what a batch may still do

  function WorkerIn(batch: Batch, w: nat): Worker {
    if w < |batch.workers| then batch.workers[w] else Ended(0)
  }

  /** Some worker is left to take the rows that no worker has taken yet. */
  ghost predicate SomeAlive(batch: Batch) {
    exists w: nat :: !WorkerIn(batch, w).Ended?
  }

  predicate Busying(w: Worker) {
    w.Calling? || w.Answered?
  }

  /** Some worker is unfinished: it holds a row, or will take one. */
  ghost predicate Active(batch: Batch) {
    || (exists w: nat :: Busying(WorkerIn(batch, w)))
    || (batch.cursor < |batch.selected| && SomeAlive(batch))
  }

  ghost predicate NoneActive(p: Pool) {
    forall b | b in p.batches :: !Active(p.batches[b])
  }

  function Initial(rows: Rows): Pool {
    Pool(rows, map[], [])
  }

  // ----- the invariant of every batch

  ghost predicate WorkerOk(log: seq<Event>, b: nat, batch: Batch, w: Worker) {
    w.Idle? || (
      && w.index < batch.cursor <= |batch.selected|
      && (Busying(w) ==>
            && batch.selectedAt <= w.startedAt < |log|
            && log[w.startedAt] == RpcStarted(b, w.index, batch.selected[w.index].name))
      && (w.Answered? ==>
            && w.startedAt < w.answeredAt < |log|
            && log[w.answeredAt] == RpcAnswered(b, w.index, batch.selected[w.index].name, w.answer)))
  }

  ghost predicate Settled(batch: Batch, i: nat) {
    exists o :: 0 <= o < |batch.outcomes| && batch.outcomes[o].index == i
  }

  function Busy(workers: seq<Worker>): nat {
    if workers == [] then 0 else (if workers[0].Idle? then 0 else 1) + Busy(workers[1..])
  }

  /** Every row before the cursor is either with exactly one worker, ended or not, or settled exactly once. */
  ghost predicate EachRowOnce(batch: Batch) {
    && batch.cursor <= |batch.selected|
    && (batch.workers == [] ==> batch.selected == [])
    && |batch.outcomes| + Busy(batch.workers) == batch.cursor
    && (forall v, w | 0 <= v < w < |batch.workers| && !batch.workers[v].Idle? && !batch.workers[w].Idle? ::
          batch.workers[v].index != batch.workers[w].index)
    && (forall n, o | 0 <= n < o < |batch.outcomes| :: batch.outcomes[n].index != batch.outcomes[o].index)
    && (forall o | 0 <= o < |batch.outcomes| ::
          && batch.outcomes[o].index < batch.cursor
          && batch.outcomes[o].acknowledged + batch.outcomes[o].deferred <= 1)
    && (forall w, o | 0 <= w < |batch.workers| && 0 <= o < |batch.outcomes| && !batch.workers[w].Idle? ::
          batch.workers[w].index != batch.outcomes[o].index)
  }

  ghost predicate BatchOk(log: seq<Event>, b: nat, batch: Batch) {
    && EachRowOnce(batch)
    && batch.selectedAt <= |log|
    && (forall i, j | 0 <= i < j < |batch.selected| :: batch.selected[i].name != batch.selected[j].name)
    && (forall w | 0 <= w < |batch.workers| :: WorkerOk(log, b, batch, batch.workers[w]))
  }

  ghost predicate Inv(p: Pool) {
    forall b | b in p.batches :: BatchOk(p.log, b, p.batches[b])
  }

  lemma {:induction false} BusyUpdate(workers: seq<Worker>, w: nat, next: Worker)
    requires w < |workers|
    ensures Busy(workers[w := next])
         == Busy(workers) - (if workers[w].Idle? then 0 else 1) + (if next.Idle? then 0 else 1)
  {
    if w == 0 {
      assert workers[0 := next][1..] == workers[1..];
    } else {
      assert workers[w := next][1..] == workers[1..][w - 1 := next];
      BusyUpdate(workers[1..], w - 1, next);
    }
  }

  lemma {:induction false} BusyIdle(workers: seq<Worker>)
    requires forall w | 0 <= w < |workers| :: workers[w].Idle?
    ensures Busy(workers) == 0
  {
    if workers != [] {
      BusyIdle(workers[1..]);
    }
  }

  /** Worker facts survive as the log grows. */
  lemma WorkersOkLater(log: seq<Event>, event: Event, b: nat, batch: Batch)
    requires BatchOk(log, b, batch)
    ensures BatchOk(log + [event], b, batch)
  {
    forall w | 0 <= w < |batch.workers| ensures WorkerOk(log + [event], b, batch, batch.workers[w]) {
      assert WorkerOk(log, b, batch, batch.workers[w]);
    }
  }

  lemma StartKeepsBatch(p: Pool, op: Op)
    requires Inv(p) && op.StartRpc? && Enabled(p, op)
    ensures BatchOk(Apply(p, op).log, op.batch, Apply(p, op).batches[op.batch])
  {
    var batch, q := p.batches[op.batch], Apply(p, op);
    var next := q.batches[op.batch];
    BusyUpdate(batch.workers, op.worker, next.workers[op.worker]);
    forall w | 0 <= w < |next.workers| ensures WorkerOk(q.log, op.batch, next, next.workers[w]) {
      assert WorkerOk(p.log, op.batch, batch, batch.workers[w]);
    }
    assert forall w | 0 <= w < |batch.workers| :: WorkerOk(p.log, op.batch, batch, batch.workers[w]);
    assert EachRowOnce(next);
  }

  lemma AnswerKeepsBatch(p: Pool, op: Op)
    requires Inv(p) && op.AnswerRpc? && Enabled(p, op)
    ensures BatchOk(Apply(p, op).log, op.batch, Apply(p, op).batches[op.batch])
  {
    var batch, q := p.batches[op.batch], Apply(p, op);
    var next := q.batches[op.batch];
    BusyUpdate(batch.workers, op.worker, next.workers[op.worker]);
    forall w | 0 <= w < |next.workers| ensures WorkerOk(q.log, op.batch, next, next.workers[w]) {
      assert WorkerOk(p.log, op.batch, batch, batch.workers[w]);
      assert WorkerOk(p.log, op.batch, batch, batch.workers[op.worker]);
    }
    assert EachRowOnce(next);
  }

  lemma ThrowKeepsBatch(p: Pool, op: Op)
    requires Inv(p) && op.ThrowRow? && Enabled(p, op)
    ensures BatchOk(Apply(p, op).log, op.batch, Apply(p, op).batches[op.batch])
  {
    var batch, q := p.batches[op.batch], Apply(p, op);
    var next := q.batches[op.batch];
    BusyUpdate(batch.workers, op.worker, next.workers[op.worker]);
    forall w | 0 <= w < |next.workers| ensures WorkerOk(q.log, op.batch, next, next.workers[w]) {
      assert WorkerOk(p.log, op.batch, batch, batch.workers[w]);
    }
    assert EachRowOnce(next);
  }

  /** A worker that becomes idle hands its row over to the outcomes. */
  lemma SettleKeepsRows(batch: Batch, w: nat, outcome: Outcome, next: Batch)
    requires EachRowOnce(batch) && w < |batch.workers| && !batch.workers[w].Idle? && batch.workers[w].index < batch.cursor
    requires outcome.index == batch.workers[w].index && outcome.acknowledged + outcome.deferred <= 1
    requires next == batch.(workers := batch.workers[w := Idle], outcomes := batch.outcomes + [outcome])
    ensures EachRowOnce(next)
  {
    BusyUpdate(batch.workers, w, Idle);
  }

  lemma SettleKeepsBatch(p: Pool, op: Op)
    requires Inv(p) && op.SettleRow? && Enabled(p, op)
    ensures BatchOk(Apply(p, op).log, op.batch, Apply(p, op).batches[op.batch])
  {
    var batch, q := p.batches[op.batch], Apply(p, op);
    var next := q.batches[op.batch];
    assert WorkerOk(p.log, op.batch, batch, batch.workers[op.worker]);
    forall w | 0 <= w < |next.workers| ensures WorkerOk(q.log, op.batch, next, next.workers[w]) {
      assert WorkerOk(p.log, op.batch, batch, batch.workers[w]);
    }
    SettleKeepsRows(batch, op.worker, next.outcomes[|batch.outcomes|], next);
  }

  lemma StepKeepsInv(p: Pool, op: Op)
    requires Inv(p) && Enabled(p, op)
    ensures Inv(Apply(p, op))
  {
    var q := Apply(p, op);
    forall b | b in q.batches ensures BatchOk(q.log, b, q.batches[b]) {
      if b in p.batches && q.batches[b] == p.batches[b] {
        WorkersOkLater(p.log, q.log[|p.log|], b, p.batches[b]);
        assert q.log == p.log + [q.log[|p.log|]];
      } else if op.Select? {
        BusyIdle(q.batches[b].workers);
      } else if op.StartRpc? {
        StartKeepsBatch(p, op);
      } else if op.AnswerRpc? {
        AnswerKeepsBatch(p, op);
      } else if op.ThrowRow? {
        ThrowKeepsBatch(p, op);
      } else {
        SettleKeepsBatch(p, op);
      }
    }
  }

  /**
   When a batch can finish, each selected row was processed exactly once, so the
   result it reports satisfies acknowledged + deferred <= selected.
   */
  lemma FinishedBatchAccounts(p: Pool, b: nat)
    requires Inv(p) && Enabled(p, FinishBatch(b))
    ensures var batch := p.batches[b];
      && |batch.outcomes| == |batch.selected|
      && (forall i | 0 <= i < |batch.selected| :: Settled(batch, i))
      && Total(batch.outcomes).0 + Total(batch.outcomes).1 <= |batch.selected|
  {
    var batch := p.batches[b];
    BusyIdle(batch.workers);
    TotalBound(batch.outcomes);
    var indices := seq(|batch.outcomes|, o requires 0 <= o < |batch.outcomes| => batch.outcomes[o].index);
    forall i | 0 <= i < |batch.selected| ensures Settled(batch, i) {
      AllCovered(indices, |batch.selected|, i);
    }
  }

  function Total(outcomes: seq<Outcome>): (nat, nat) {
    if outcomes == [] then (0, 0)
    else var rest := Total(outcomes[1..]);
         (outcomes[0].acknowledged + rest.0, outcomes[0].deferred + rest.1)
  }

  lemma {:induction false} TotalBound(outcomes: seq<Outcome>)
    requires forall o | 0 <= o < |outcomes| :: outcomes[o].acknowledged + outcomes[o].deferred <= 1
    ensures Total(outcomes).0 + Total(outcomes).1 <= |outcomes|
  {
    if outcomes != [] {
      TotalBound(outcomes[1..]);
    }
  }

  /** n distinct numbers below n are all of them. */
  lemma {:induction false} AllCovered(s: seq<nat>, n: nat, i: nat)
    requires |s| == n && i < n
    requires forall k | 0 <= k < n :: s[k] < n
    requires forall j, k | 0 <= j < k < n :: s[j] != s[k]
    ensures i in s
  {
    if i !in s {
      // Removing n - 1 (or renaming it to i) leaves n - 1 distinct numbers below n - 1.
      var renamed := seq(n, k requires 0 <= k < n => if s[k] == n - 1 then i else s[k]);
      Pigeonhole(renamed, n - 1);
    }
  }

  lemma {:induction false} Pigeonhole(s: seq<nat>, n: nat)
    requires |s| == n + 1
    requires forall k | 0 <= k < |s| :: s[k] < n
    requires forall j, k | 0 <= j < k < |s| :: s[j] != s[k]
    ensures false
    decreases n
  {
    var first := s[0];
    assert first < n;
    if n > 0 {
      var last := s[n];
      var rest := seq(n, k requires 0 <= k < n => if s[k] == n - 1 then last else s[k]);
      Pigeonhole(rest, n - 1);
    }
  }
}
