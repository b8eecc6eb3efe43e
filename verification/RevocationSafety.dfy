/**
 When the pool loses a revocation: a row re-created after its acknowledgement starts again at
 generation 1, so an unsettled row of a batch in flight may be taken for it.
 */
module RevocationSafety {
  import opened RevocationOutbox
  import opened RevocationPool

  // ----- what "no lost revocation" means

  ghost predicate NoEnqueue(log: seq<Event>, name: RoomName, from: nat) {
    forall m | from <= m < |log| :: log[m] != Enqueued(name)
  }

  /**
   The acknowledgement at k follows a `deleteRoom` of the same name that started
   at i, after every enqueue of that name before k, and answered "gone" at j.
   */
  ghost predicate JustifiedBy(log: seq<Event>, i: nat, j: nat, k: nat)
    requires k < |log| && log[k].RowAcknowledged?
  {
    && i < j < k
    && log[i] == RpcStarted(log[k].batch, log[k].index, log[k].name)
    && log[j].RpcAnswered? && !log[j].answer.Failed?
    && log[j] == RpcAnswered(log[k].batch, log[k].index, log[k].name, log[j].answer)
    && NoEnqueue(log[..k], log[k].name, i)
  }

  ghost predicate Justified(log: seq<Event>) {
    forall k | 0 <= k < |log| && log[k].RowAcknowledged? :: exists i, j :: JustifiedBy(log, i, j, k)
  }

  // ----- the enqueues that may lose a revocation

  /** Settling the worker's row may still acknowledge it, for a call that has started already. */
  predicate MayAcknowledge(w: Worker) {
    w.Calling? || (w.Answered? && !w.answer.Failed?)
  }

  predicate CarriedBy(batch: Batch, w: nat, name: RoomName) {
    var worker := WorkerIn(batch, w);
    && MayAcknowledge(worker) && worker.index < |batch.selected|
    && batch.selected[worker.index].name == name && batch.selected[worker.index].generation >= 1
  }

  predicate CarriedLater(batch: Batch, i: nat, name: RoomName) {
    batch.cursor <= i < |batch.selected| && batch.selected[i].name == name && batch.selected[i].generation >= 2
  }

  /** An unsettled row of the batch that an insert of the name at generation 1, and updates of it, can be taken for. */
  ghost predicate Endangers(batch: Batch, name: RoomName) {
    || (exists w: nat :: CarriedBy(batch, w, name))
    || (SomeAlive(batch) && exists i: nat :: CarriedLater(batch, i, name))
  }

  /** Enqueuing the name now inserts a row while a batch in flight carries an unsettled one of that name. */
  ghost predicate Harmful(p: Pool, name: RoomName) {
    name !in p.rows && exists b :: b in p.batches && Endangers(p.batches[b], name)
  }

  ghost predicate Harmless(p: Pool, ops: seq<Op>)
    requires Legal(p, ops)
    decreases |ops|
  {
    ops == [] || ((ops[0].Enqueue? ==> !Harmful(p, ops[0].name)) && Harmless(Apply(p, ops[0]), ops[1..]))
  }

  // ----- without such an enqueue nothing is lost, however batches overlap

  predicate Below(rows: Rows, row: Selected) {
    row.name in rows ==> row.generation <= rows[row.name].generation
  }

  /** If the outbox still holds the row, nothing has enqueued its name since `from`. */
  ghost predicate Fresh(p: Pool, row: Selected, from: nat) {
    Below(p.rows, row) && (Holds(p.rows, row) ==> NoEnqueue(p.log, row.name, from))
  }

  ghost predicate Guarded(p: Pool, batch: Batch) {
    && (forall w | 0 <= w < |batch.workers| && MayAcknowledge(batch.workers[w]) && batch.workers[w].index < |batch.selected| ::
          Fresh(p, batch.selected[batch.workers[w].index], batch.workers[w].startedAt))
    && (SomeAlive(batch) ==> forall i | batch.cursor <= i < |batch.selected| :: Below(p.rows, batch.selected[i]))
  }

  ghost predicate GuardInv(p: Pool) {
    Inv(p) && (forall b | b in p.batches :: Guarded(p, p.batches[b])) && Justified(p.log)
  }

  lemma EnqueueKeepsGuard(p: Pool, op: Op, batch: Batch)
    requires op.Enqueue? && Guarded(p, batch)
    requires op.name !in p.rows ==> !Endangers(batch, op.name)
    ensures Guarded(Apply(p, op), batch)
  {
    var q := Apply(p, op);
    assert q.log == p.log + [Enqueued(op.name)];
    forall w | 0 <= w < |batch.workers| && MayAcknowledge(batch.workers[w]) && batch.workers[w].index < |batch.selected|
      ensures Fresh(q, batch.selected[batch.workers[w].index], batch.workers[w].startedAt)
    {
      assert WorkerIn(batch, w) == batch.workers[w];
      assert Fresh(p, batch.selected[batch.workers[w].index], batch.workers[w].startedAt);
      assert op.name !in p.rows ==> !CarriedBy(batch, w, op.name);
    }
    if SomeAlive(batch) {
      forall i | batch.cursor <= i < |batch.selected|
        ensures Below(q.rows, batch.selected[i])
      {
        assert op.name !in p.rows ==> !CarriedLater(batch, i, op.name);
      }
    }
  }

  /** Settling a row lets no other row be held that was not, and lowers no generation. */
  lemma SettledRowsStayFresh(p: Pool, op: Op, row: Selected, from: nat)
    requires op.SettleRow? && Enabled(p, op)
    ensures Below(p.rows, row) ==> Below(Apply(p, op).rows, row)
    ensures Fresh(p, row, from) ==> Fresh(Apply(p, op), row, from)
  {
    var q := Apply(p, op);
    assert q.log == p.log + [q.log[|p.log|]];
  }

  lemma SettleKeepsGuard(p: Pool, op: Op, b: nat)
    requires op.SettleRow? && Enabled(p, op) && b in p.batches && Guarded(p, p.batches[b])
    ensures Guarded(Apply(p, op), Apply(p, op).batches[b])
  {
    var q := Apply(p, op);
    var batch, next := p.batches[b], q.batches[b];
    forall w | 0 <= w < |next.workers| && MayAcknowledge(next.workers[w]) && next.workers[w].index < |next.selected|
      ensures Fresh(q, next.selected[next.workers[w].index], next.workers[w].startedAt)
    {
      assert batch.workers[w] == next.workers[w];
      SettledRowsStayFresh(p, op, next.selected[next.workers[w].index], next.workers[w].startedAt);
    }
    if SomeAlive(next) {
      assert SomeAlive(batch) by {
        var w: nat :| !WorkerIn(next, w).Ended?;
        assert !WorkerIn(batch, w).Ended?;
      }
      forall i | next.cursor <= i < |next.selected| ensures Below(q.rows, next.selected[i]) {
        assert Below(p.rows, batch.selected[i]);
        SettledRowsStayFresh(p, op, next.selected[i], 0);
      }
    }
  }

  /** Steps that leave the rows alone. */
  lemma WorkerStepKeepsGuard(p: Pool, op: Op, b: nat)
    requires (op.StartRpc? || op.AnswerRpc? || op.ThrowRow? || op.FinishBatch? || op.Select?) && Enabled(p, op)
    requires b in p.batches && b in Apply(p, op).batches && Guarded(p, p.batches[b])
    ensures Guarded(Apply(p, op), Apply(p, op).batches[b])
  {
    var q := Apply(p, op);
    var batch, next := p.batches[b], q.batches[b];
    assert q.rows == p.rows && q.log == p.log + [q.log[|p.log|]] && !q.log[|p.log|].Enqueued?;
    if SomeAlive(next) {
      var w: nat :| !WorkerIn(next, w).Ended?;
      assert !WorkerIn(batch, w).Ended?;
    }
    if op.StartRpc? && b == op.batch {
      assert !WorkerIn(batch, op.worker).Ended?;
    }
  }

  lemma StepKeepsGuarded(p: Pool, op: Op, b: nat)
    requires GuardInv(p) && Enabled(p, op) && (op.Enqueue? ==> !Harmful(p, op.name))
    requires b in Apply(p, op).batches
    ensures Guarded(Apply(p, op), Apply(p, op).batches[b])
  {
    if op.Enqueue? {
      EnqueueKeepsGuard(p, op, p.batches[b]);
    } else if op.SettleRow? {
      SettleKeepsGuard(p, op, b);
    } else if b in p.batches {
      WorkerStepKeepsGuard(p, op, b);
    }
  }

  lemma AcknowledgementIsJustified(p: Pool, op: Op)
    requires GuardInv(p) && op.SettleRow? && Enabled(p, op)
    requires Apply(p, op).log[|p.log|].RowAcknowledged?
    ensures exists i, j :: JustifiedBy(Apply(p, op).log, i, j, |p.log|)
  {
    var q := Apply(p, op);
    var batch := p.batches[op.batch];
    var w := batch.workers[op.worker];
    assert WorkerOk(p.log, op.batch, batch, w);
    assert Guarded(p, batch);
    assert Fresh(p, batch.selected[w.index], w.startedAt);
    assert q.log[..|p.log|] == p.log;
    assert JustifiedBy(q.log, w.startedAt, w.answeredAt, |p.log|);
  }

  lemma StaysJustified(log: seq<Event>, e: Event, i: nat, j: nat, k: nat)
    requires k < |log| && log[k].RowAcknowledged? && JustifiedBy(log, i, j, k)
    ensures JustifiedBy(log + [e], i, j, k)
  {
    assert (log + [e])[..k] == log[..k];
  }

  lemma LogStaysJustified(p: Pool, op: Op)
    requires GuardInv(p) && Enabled(p, op)
    ensures Justified(Apply(p, op).log)
  {
    var q := Apply(p, op);
    assert q.log == p.log + [q.log[|p.log|]];
    forall k | 0 <= k < |q.log| && q.log[k].RowAcknowledged? ensures exists i, j :: JustifiedBy(q.log, i, j, k) {
      if k == |p.log| {
        AcknowledgementIsJustified(p, op);
      } else {
        var i, j :| JustifiedBy(p.log, i, j, k);
        StaysJustified(p.log, q.log[|p.log|], i, j, k);
      }
    }
  }

  /** Every step but a harmful enqueue keeps the guards of all batches in flight. */
  lemma StepKeepsGuards(p: Pool, op: Op)
    requires GuardInv(p) && Enabled(p, op) && (op.Enqueue? ==> !Harmful(p, op.name))
    ensures GuardInv(Apply(p, op))
  {
    var q := Apply(p, op);
    StepKeepsInv(p, op);
    forall b | b in q.batches ensures Guarded(q, q.batches[b]) {
      StepKeepsGuarded(p, op, b);
    }
    LogStaysJustified(p, op);
  }

  lemma {:induction false} HarmlessRun(p: Pool, ops: seq<Op>)
    requires GuardInv(p) && Legal(p, ops) && Harmless(p, ops)
    ensures GuardInv(Exec(p, ops))
    decreases |ops|
  {
    if ops != [] {
      StepKeepsGuards(p, ops[0]);
      HarmlessRun(Apply(p, ops[0]), ops[1..]);
    }
  }

  /** Runs without a harmful enqueue lose no revocation, however many batches overlap. */
  lemma HarmlessRunsLoseNothing(rows: Rows, ops: seq<Op>)
    requires Legal(Initial(rows), ops) && Harmless(Initial(rows), ops)
    ensures Justified(Exec(Initial(rows), ops).log)
  {
    HarmlessRun(Initial(rows), ops);
  }

  // ----- one batch at a time

  /** The discipline the application keeps: a batch is selected only when no other can still do anything. */
  ghost predicate Serial(p: Pool, ops: seq<Op>)
    requires Legal(p, ops)
    decreases |ops|
  {
    ops == [] || ((ops[0].Select? ==> NoneActive(p)) && Serial(Apply(p, ops[0]), ops[1..]))
  }

  /** The rows a batch may still acknowledge are in the outbox. */
  ghost predicate Present(p: Pool, batch: Batch) {
    && (forall w | 0 <= w < |batch.workers| && MayAcknowledge(batch.workers[w]) && batch.workers[w].index < |batch.selected| ::
          batch.selected[batch.workers[w].index].name in p.rows)
    && (SomeAlive(batch) ==> forall i | batch.cursor <= i < |batch.selected| :: batch.selected[i].name in p.rows)
  }

  ghost predicate SafeInv(p: Pool) {
    && GuardInv(p)
    && (forall a, b | a in p.batches && b in p.batches && Active(p.batches[a]) && Active(p.batches[b]) :: a == b)
    && (forall b | b in p.batches && Active(p.batches[b]) :: Present(p, p.batches[b]))
  }

  lemma EndangeredIsPresent(p: Pool, batch: Batch, name: RoomName)
    requires Endangers(batch, name)
    ensures Active(batch)
    ensures Present(p, batch) ==> name in p.rows
  {
    if w: nat :| CarriedBy(batch, w, name) {
      assert Busying(WorkerIn(batch, w)) && WorkerIn(batch, w) == batch.workers[w];
    } else {
      var i: nat :| CarriedLater(batch, i, name);
      assert batch.selected[i].name == name;
    }
  }

  lemma PresentIsHarmless(p: Pool, name: RoomName)
    requires SafeInv(p)
    ensures !Harmful(p, name)
  {
    forall b | b in p.batches && Endangers(p.batches[b], name)
      ensures name in p.rows
    {
      EndangeredIsPresent(p, p.batches[b], name);
    }
  }

  /** A batch that can do something could do so before the step, unless the step selects it. */
  lemma ActiveBefore(p: Pool, op: Op, b: nat)
    requires Enabled(p, op) && b in p.batches && b in Apply(p, op).batches && Active(Apply(p, op).batches[b])
    ensures Active(p.batches[b])
  {
    var batch, next := p.batches[b], Apply(p, op).batches[b];
    if next != batch {
      var w := op.worker;
      assert WorkerIn(batch, w) == batch.workers[w];
      if op.StartRpc? {
        assert !WorkerIn(batch, w).Ended?;
        assert SomeAlive(batch);
      } else {
        assert Busying(WorkerIn(batch, w));
      }
    }
  }

  lemma SettleKeepsPresent(p: Pool, op: Op)
    requires Inv(p) && op.SettleRow? && Enabled(p, op) && Present(p, p.batches[op.batch])
    ensures Present(Apply(p, op), Apply(p, op).batches[op.batch])
  {
    var q := Apply(p, op);
    var batch, next := p.batches[op.batch], q.batches[op.batch];
    var row := batch.selected[batch.workers[op.worker].index];
    assert BatchOk(p.log, op.batch, batch);
    assert WorkerOk(p.log, op.batch, batch, batch.workers[op.worker]);
    forall i | 0 <= i < |batch.selected| && i != batch.workers[op.worker].index && batch.selected[i].name in p.rows
      ensures batch.selected[i].name in q.rows
    {
      assert batch.selected[i].name != row.name;
    }
    forall w | 0 <= w < |next.workers| && MayAcknowledge(next.workers[w]) && next.workers[w].index < |next.selected|
      ensures next.selected[next.workers[w].index].name in q.rows
    {
      assert w != op.worker && batch.workers[w] == next.workers[w];
      assert batch.workers[w].index != batch.workers[op.worker].index;
    }
    if SomeAlive(next) {
      assert SomeAlive(batch) by {
        assert !WorkerIn(batch, op.worker).Ended?;
      }
    }
  }

  lemma WorkerStepKeepsPresent(p: Pool, op: Op, b: nat)
    requires (op.StartRpc? || op.AnswerRpc? || op.ThrowRow? || op.FinishBatch? || op.Enqueue?) && Enabled(p, op)
    requires b in p.batches && b in Apply(p, op).batches && Present(p, p.batches[b])
    ensures Present(Apply(p, op), Apply(p, op).batches[b])
  {
    var batch, next := p.batches[b], Apply(p, op).batches[b];
    if SomeAlive(next) {
      var w: nat :| !WorkerIn(next, w).Ended?;
      assert !WorkerIn(batch, w).Ended?;
    }
    if op.StartRpc? && op.batch == b {
      assert !WorkerIn(batch, op.worker).Ended?;
    }
  }

  lemma StepKeepsPresent(p: Pool, op: Op, b: nat)
    requires SafeInv(p) && Enabled(p, op) && (op.Select? ==> NoneActive(p))
    requires b in Apply(p, op).batches && Active(Apply(p, op).batches[b])
    ensures Present(Apply(p, op), Apply(p, op).batches[b])
  {
    if op.Select? && b == op.batch {
      assert Apply(p, op).batches[b].selected == op.selected;
    } else {
      ActiveBefore(p, op, b);
      if op.SettleRow? {
        assert Busying(WorkerIn(p.batches[op.batch], op.worker));
        assert Active(p.batches[op.batch]) && b == op.batch;
        SettleKeepsPresent(p, op);
      } else if !op.Select? {
        WorkerStepKeepsPresent(p, op, b);
      }
    }
  }

  lemma StepKeepsSafe(p: Pool, op: Op)
    requires SafeInv(p) && Enabled(p, op)
    requires op.Select? ==> NoneActive(p)
    ensures SafeInv(Apply(p, op))
  {
    var q := Apply(p, op);
    if op.Enqueue? {
      PresentIsHarmless(p, op.name);
    }
    StepKeepsGuards(p, op);
    forall b | b in q.batches && Active(q.batches[b]) ensures Present(q, q.batches[b]) {
      StepKeepsPresent(p, op, b);
    }
    forall a, b | a in q.batches && b in q.batches && Active(q.batches[a]) && Active(q.batches[b]) ensures a == b {
      if a in p.batches {
        ActiveBefore(p, op, a);
      }
      if b in p.batches {
        ActiveBefore(p, op, b);
      }
    }
  }

  /** A row leaves the outbox only in a step that logs its acknowledgement. */
  lemma RowsLeaveByAcknowledgement(p: Pool, op: Op, name: RoomName)
    requires Enabled(p, op) && name in p.rows && name !in Apply(p, op).rows
    ensures Apply(p, op).log[|p.log|].RowAcknowledged? && Apply(p, op).log[|p.log|].name == name
  {
    assert op.SettleRow?;
  }

  lemma {:induction false} SafeRun(p: Pool, ops: seq<Op>)
    requires SafeInv(p) && Legal(p, ops) && Serial(p, ops)
    ensures SafeInv(Exec(p, ops)) && Harmless(p, ops)
    decreases |ops|
  {
    if ops != [] {
      if ops[0].Enqueue? {
        PresentIsHarmless(p, ops[0].name);
      }
      StepKeepsSafe(p, ops[0]);
      SafeRun(Apply(p, ops[0]), ops[1..]);
    }
  }

  /**
   No lost revocation: with one batch at a time, in every run and whatever is
   enqueued between the steps, a row is acknowledged only after a `deleteRoom`
   for its name that started after the name's latest enqueue and found the room gone.
   */
  lemma NoLostRevocation(rows: Rows, ops: seq<Op>)
    requires Legal(Initial(rows), ops) && Serial(Initial(rows), ops)
    ensures Harmless(Initial(rows), ops) && Justified(Exec(Initial(rows), ops).log)
  {
    SafeRun(Initial(rows), ops);
  }

  /** The same about the step itself, whenever nothing harmful was enqueued: a name vanishes only after such a call. */
  lemma RemovedRowWasDeleted(rows: Rows, ops: seq<Op>, op: Op, name: RoomName)
    requires Legal(Initial(rows), ops) && Harmless(Initial(rows), ops)
    requires var p := Exec(Initial(rows), ops);
      Enabled(p, op) && name in p.rows && name !in Apply(p, op).rows
    ensures var p := Exec(Initial(rows), ops);
      && Apply(p, op).log[|p.log|] == RowAcknowledged(op.batch, p.batches[op.batch].workers[op.worker].index, name)
      && exists i, j :: JustifiedBy(Apply(p, op).log, i, j, |p.log|)
  {
    var p := Exec(Initial(rows), ops);
    HarmlessRun(Initial(rows), ops);
    RowsLeaveByAcknowledgement(p, op, name);
    AcknowledgementIsJustified(p, op);
  }

  // ----- after a harmful enqueue a revocation can be lost

  lemma ExecCons(p: Pool, op: Op, rest: seq<Op>)
    requires Enabled(p, op) && Legal(Apply(p, op), rest)
    ensures Legal(p, [op] + rest) && Exec(p, [op] + rest) == Exec(Apply(p, op), rest)
    ensures Harmless(Apply(p, op), rest) && (op.Enqueue? ==> !Harmful(p, op.name)) ==> Harmless(p, [op] + rest)
  {
    assert ([op] + rest)[1..] == rest;
  }

  lemma {:induction false} ExecAppend(p: Pool, first: seq<Op>, second: seq<Op>)
    requires Legal(p, first) && Legal(Exec(p, first), second)
    ensures Legal(p, first + second) && Exec(p, first + second) == Exec(Exec(p, first), second)
    ensures Harmless(p, first) && Harmless(Exec(p, first), second) ==> Harmless(p, first + second)
    decreases |first|
  {
    if first == [] {
      assert first + second == second;
    } else {
      ExecAppend(Apply(p, first[0]), first[1..], second);
      ExecCons(p, first[0], first[1..] + second);
      assert [first[0]] + (first[1..] + second) == first + second;
    }
  }

  /** The run can go on, enqueuing nothing else that is harmful, to an acknowledgement no delete call justifies. */
  ghost predicate CanLose(p: Pool) {
    exists more :: LosesBy(p, more)
  }

  ghost predicate LosesBy(p: Pool, more: seq<Op>) {
    Legal(p, more) && Harmless(p, more) && !Justified(Exec(p, more).log)
  }

  /** Enqueues and steps of workers: no batch begins or ends, and no row write throws. */
  predicate Straight(ops: seq<Op>) {
    forall op | op in ops :: op.Enqueue? || op.StartRpc? || op.AnswerRpc? || op.SettleRow?
  }

  ghost predicate CanLoseStraight(p: Pool) {
    exists more :: LosesBy(p, more) && Straight(more)
  }

  lemma LosesEarlier(p: Pool, op: Op)
    requires Enabled(p, op) && (op.Enqueue? ==> !Harmful(p, op.name)) && Straight([op]) && CanLoseStraight(Apply(p, op))
    ensures CanLoseStraight(p)
  {
    var more :| LosesBy(Apply(p, op), more) && Straight(more);
    ExecCons(p, op, more);
    assert op in [op];
    assert LosesBy(p, [op] + more) && Straight([op] + more);
  }

  lemma LosesNow(p: Pool)
    requires !Justified(p.log)
    ensures CanLoseStraight(p)
  {
    assert LosesBy(p, []) && Straight([]);
  }

  /** Since the enqueue at `last`, no delete call of this batch has started. */
  ghost predicate Unserved(p: Pool, name: RoomName, b: nat, last: nat) {
    && last < |p.log| && p.log[last] == Enqueued(name)
    && forall m | last <= m < |p.log| && p.log[m].RpcStarted? :: p.log[m].batch != b
  }

  /** Worker w of batch b carries the row of that name and may still acknowledge it. */
  ghost predicate Carrying(p: Pool, b: nat, w: nat, name: RoomName, generation: nat) {
    && b in p.batches && w < |p.batches[b].workers| && MayAcknowledge(p.batches[b].workers[w])
    && p.batches[b].workers[w].index < |p.batches[b].selected|
    && p.batches[b].selected[p.batches[b].workers[w].index].name == name
    && p.batches[b].selected[p.batches[b].workers[w].index].generation == generation
  }

  lemma UnservedIsUnjustified(p: Pool, k: nat, name: RoomName, last: nat)
    requires k < |p.log| && p.log[k].RowAcknowledged? && p.log[k].name == name
    requires last < k && p.log[last] == Enqueued(name)
    requires forall m | last <= m < k && p.log[m].RpcStarted? :: p.log[m].batch != p.log[k].batch
    ensures !Justified(p.log)
  {
    forall i: nat, j: nat ensures !JustifiedBy(p.log, i, j, k) {
      if i <= last && i < j < k {
        assert p.log[..k][last] == Enqueued(name);
        assert !NoEnqueue(p.log[..k], name, i);
      }
    }
  }

  /** An answered worker settles the row at the generation it was selected with. */
  lemma SettlingLoses(p: Pool, b: nat, w: nat, name: RoomName, generation: nat, last: nat)
    requires Carrying(p, b, w, name, generation) && p.batches[b].workers[w].Answered?
    requires name in p.rows && p.rows[name].generation == generation && Unserved(p, name, b, last)
    ensures CanLoseStraight(p)
  {
    var op := SettleRow(b, w, 0);
    var q := Apply(p, op);
    assert Holds(p.rows, p.batches[b].selected[p.batches[b].workers[w].index]);
    assert q.log == p.log + [RowAcknowledged(b, p.batches[b].workers[w].index, name)];
    UnservedIsUnjustified(q, |p.log|, name, last);
    LosesNow(q);
    LosesEarlier(p, op);
  }

  /** The row is enqueued until it has that generation again, the call answers, and the row is taken for the selected one. */
  lemma {:induction false} CarryingLoses(p: Pool, b: nat, w: nat, name: RoomName, generation: nat, last: nat)
    requires Carrying(p, b, w, name, generation) && name in p.rows && p.rows[name].generation <= generation
    requires Unserved(p, name, b, last)
    ensures CanLoseStraight(p)
    decreases generation - p.rows[name].generation
  {
    if p.rows[name].generation < generation {
      var op := Enqueue(name, 0);
      CarryingLoses(Apply(p, op), b, w, name, generation, last);
      LosesEarlier(p, op);
    } else if p.batches[b].workers[w].Calling? {
      var op := AnswerRpc(b, w, Deleted);
      var q := Apply(p, op);
      assert q.batches[b].workers[w].Answered?;
      SettlingLoses(q, b, w, name, generation, last);
      LosesEarlier(p, op);
    } else {
      SettlingLoses(p, b, w, name, generation, last);
    }
  }

  /** How far worker w is from calling for row i. */
  function Distance(batch: Batch, w: nat, i: nat): nat
    requires batch.cursor <= i
  {
    3 * (i - batch.cursor) + match WorkerIn(batch, w) case Calling(_, _) => 2 case Answered(_, _, _, _) => 1 case _ => 0
  }

  /** Worker w has just called for row i. */
  lemma CalledLoses(p: Pool, q: Pool, b: nat, w: nat, i: nat, name: RoomName)
    requires Inv(q) && b in p.batches && Enabled(p, StartRpc(b, w)) && q == Apply(p, StartRpc(b, w)) && p.batches[b].cursor == i
    requires CarriedLater(p.batches[b], i, name) && name in q.rows && q.rows[name].generation == 1
    ensures CanLoseStraight(q)
  {
    var d := Apply(q, Enqueue(name, 0));
    assert q.batches[b].workers[w] == Calling(i, |p.log|);
    CarryingLoses(d, b, w, name, p.batches[b].selected[i].generation, |q.log|);
    LosesEarlier(q, Enqueue(name, 0));
  }

  /** Worker w settles what it holds and takes the rows before row i, until it calls for row i itself. */
  lemma {:induction false} ReachedLoses(p: Pool, b: nat, w: nat, i: nat, name: RoomName)
    requires Inv(p) && b in p.batches && w < |p.batches[b].workers| && !p.batches[b].workers[w].Ended?
    requires CarriedLater(p.batches[b], i, name) && name in p.rows && p.rows[name].generation == 1
    ensures CanLoseStraight(p)
    decreases Distance(p.batches[b], w, i)
  {
    var batch := p.batches[b];
    assert BatchOk(p.log, b, batch) && WorkerOk(p.log, b, batch, batch.workers[w]);
    assert WorkerIn(batch, w) == batch.workers[w];
    var op := match batch.workers[w]
              case Calling(_, _) => AnswerRpc(b, w, Failed)
              case Answered(_, _, _, _) => SettleRow(b, w, 0)
              case _ => StartRpc(b, w);
    assert Enabled(p, op);
    var q := Apply(p, op);
    StepKeepsInv(p, op);
    if op.StartRpc? && batch.cursor == i {
      CalledLoses(p, q, b, w, i, name);
    } else {
      NextWorker(p, op, b, w);
      if op.SettleRow? {
        assert batch.selected[batch.workers[w].index].name != name;
      }
      ReachedLoses(q, b, w, i, name);
    }
    LosesEarlier(p, op);
  }

  lemma NextWorker(p: Pool, op: Op, b: nat, w: nat)
    requires Enabled(p, op) && (op.StartRpc? || op.AnswerRpc? || op.SettleRow?) && op.batch == b && op.worker == w
    ensures var batch, next := p.batches[b], Apply(p, op).batches[b];
      && next.selected == batch.selected && next.cursor == batch.cursor + (if op.StartRpc? then 1 else 0)
      && WorkerIn(next, w) == next.workers[w] && |next.workers| == |batch.workers|
      && (op.StartRpc? ==> next.workers[w].Calling?) && (op.AnswerRpc? ==> next.workers[w].Answered?)
      && (op.SettleRow? ==> next.workers[w].Idle?)
  {
  }

  lemma HarmfulLoses(p: Pool, name: RoomName, now: int)
    requires Inv(p) && Harmful(p, name)
    ensures CanLoseStraight(Apply(p, Enqueue(name, now)))
  {
    var q := Apply(p, Enqueue(name, now));
    StepKeepsInv(p, Enqueue(name, now));
    var b :| b in p.batches && Endangers(p.batches[b], name);
    var batch := p.batches[b];
    if w: nat :| CarriedBy(batch, w, name) {
      CarryingLoses(q, b, w, name, batch.selected[batch.workers[w].index].generation, |p.log|);
    } else {
      var i: nat :| CarriedLater(batch, i, name);
      var w: nat :| !WorkerIn(batch, w).Ended?;
      ReachedLoses(q, b, w, i, name);
    }
  }

  /**
     Exactly the harmful enqueues: from a state reached without one, the run after an enqueue can lose a
     revocation, nothing harmful being enqueued later, if and only if that enqueue is harmful; and if it
     can, then even without another batch.
   */
  lemma RevocationIsLostIff(rows: Rows, ops: seq<Op>, name: RoomName, now: int)
    requires Legal(Initial(rows), ops) && Harmless(Initial(rows), ops)
    ensures var p := Exec(Initial(rows), ops);
      && (CanLose(Apply(p, Enqueue(name, now))) <==> Harmful(p, name))
      && (CanLoseStraight(Apply(p, Enqueue(name, now))) <==> Harmful(p, name))
  {
    var p := Exec(Initial(rows), ops);
    HarmlessRun(Initial(rows), ops);
    if Harmful(p, name) {
      HarmfulLoses(p, name, now);
    } else {
      var q := Apply(p, Enqueue(name, now));
      StepKeepsGuards(p, Enqueue(name, now));
      forall more | Legal(q, more) && Harmless(q, more)
        ensures Justified(Exec(q, more).log)
      {
        HarmlessRun(q, more);
      }
    }
  }

  // ----- a run that loses one

  /**
   A row re-created after its acknowledgement starts again at generation 1, so
   two overlapping batches can acknowledge an enqueue no delete call has followed.
   */
  function FirstHalf(name: RoomName): seq<Op> {
    var row := [Selected(name, 1, 0)];
    [Enqueue(name, 0)] + ([Select(1, row, 0, 16)] + ([StartRpc(1, 0)] + ([AnswerRpc(1, 0, Deleted)] + ([Select(2, row, 0, 16)] + []))))
  }

  function SecondHalf(name: RoomName): seq<Op> {
    [StartRpc(2, 0)] + ([SettleRow(1, 0, 0)] + ([Enqueue(name, 1)] + ([AnswerRpc(2, 0, Deleted)] + ([SettleRow(2, 0, 1)] + []))))
  }

  function Halfway(name: RoomName): Pool {
    var row := Selected(name, 1, 0);
    Pool(map[name := Row(1, 0, 0, 0, false)],
         map[1 := Batch([row], 1, 1, [Answered(0, 2, 3, Deleted)], []), 2 := Batch([row], 4, 0, [Idle], [])],
         [Enqueued(name), BatchSelected(1), RpcStarted(1, 0, name), RpcAnswered(1, 0, name, Deleted), BatchSelected(2)])
  }

  lemma FirstHalfRuns(name: RoomName)
    ensures Legal(Initial(map[]), FirstHalf(name)) && Exec(Initial(map[]), FirstHalf(name)) == Halfway(name)
  {
    var row := [Selected(name, 1, 0)];
    assert row[0].name == name;
    assert NewBatch(row, 1).workers == [Idle] && NewBatch(row, 4).workers == [Idle];
    var p1 := Apply(Initial(map[]), Enqueue(name, 0));
    var p2 := Apply(p1, Select(1, row, 0, 16));
    var p3 := Apply(p2, StartRpc(1, 0));
    var p4 := Apply(p3, AnswerRpc(1, 0, Deleted));
    var p5 := Apply(p4, Select(2, row, 0, 16));
    assert p3.batches[1].workers == [Calling(0, 2)] && p5.batches[1].workers == [Answered(0, 2, 3, Deleted)];
    assert p5.rows == Halfway(name).rows && p5.log == Halfway(name).log;
    assert p5.batches[1] == Halfway(name).batches[1];
    assert p5.batches[2] == Halfway(name).batches[2];
    assert p5.batches == Halfway(name).batches;
    ExecCons(p4, Select(2, row, 0, 16), []);
    var rest4 := [Select(2, row, 0, 16)] + [];
    ExecCons(p3, AnswerRpc(1, 0, Deleted), rest4);
    var rest3 := [AnswerRpc(1, 0, Deleted)] + rest4;
    ExecCons(p2, StartRpc(1, 0), rest3);
    ExecCons(p1, Select(1, row, 0, 16), [StartRpc(1, 0)] + rest3);
    ExecCons(Initial(map[]), Enqueue(name, 0), [Select(1, row, 0, 16)] + ([StartRpc(1, 0)] + rest3));
  }

  lemma SecondHalfRuns(name: RoomName)
    ensures Legal(Halfway(name), SecondHalf(name))
    ensures Exec(Halfway(name), SecondHalf(name)).log == Halfway(name).log
      + [RpcStarted(2, 0, name), RowAcknowledged(1, 0, name), Enqueued(name), RpcAnswered(2, 0, name, Deleted), RowAcknowledged(2, 0, name)]
  {
    var p1 := Apply(Halfway(name), StartRpc(2, 0));
    var p2 := Apply(p1, SettleRow(1, 0, 0));
    var p3 := Apply(p2, Enqueue(name, 1));
    var p4 := Apply(p3, AnswerRpc(2, 0, Deleted));
    ExecCons(p4, SettleRow(2, 0, 1), []);
    var rest4 := [SettleRow(2, 0, 1)] + [];
    ExecCons(p3, AnswerRpc(2, 0, Deleted), rest4);
    var rest3 := [AnswerRpc(2, 0, Deleted)] + rest4;
    ExecCons(p2, Enqueue(name, 1), rest3);
    ExecCons(p1, SettleRow(1, 0, 0), [Enqueue(name, 1)] + rest3);
    ExecCons(Halfway(name), StartRpc(2, 0), [SettleRow(1, 0, 0)] + ([Enqueue(name, 1)] + rest3));
  }

  lemma OverlappingBatchesLoseARevocation(name: RoomName)
    ensures Legal(Initial(map[]), FirstHalf(name) + SecondHalf(name))
    ensures !Justified(Exec(Initial(map[]), FirstHalf(name) + SecondHalf(name)).log)
  {
    FirstHalfRuns(name);
    SecondHalfRuns(name);
    ExecAppend(Initial(map[]), FirstHalf(name), SecondHalf(name));
    var log := Exec(Initial(map[]), FirstHalf(name) + SecondHalf(name)).log;
    assert log[9] == RowAcknowledged(2, 0, name) && log[5] == RpcStarted(2, 0, name);
    assert log[..9][7] == Enqueued(name);
    assert !exists i, j :: JustifiedBy(log, i, j, 9);
  }
}
