/**
 The single-flight runner that drives the pool: callers bump a request counter
 and await the current run; a run snapshots the counter, processes batches, and
 publishes the snapshot as completed. The asynchronous closures are modelled as
 interleaved steps between their awaits; a batch is named by the log position
 of its selection.
 */
module MaintenanceRunner {
  import opened RevocationOutbox
  import opened RevocationPool
  import opened RevocationSafety
  import opened Wrappers

  const MAX_BATCHES_PER_RUN := 4

  datatype Run =
    | Batching(snapshot: nat, first: nat, number: nat, batch: nat)
    | Resuming(snapshot: nat, first: nat, number: nat, selected: nat)
    | Exited(failed: bool)
    | Settled(failed: bool)

  datatype Phase =
    | Waiting(run: nat)
    | Returned(stopSeen: bool)
    | Rejected

  datatype Caller = Caller(goal: nat, requestedAt: nat, awaits: nat, phase: Phase)

  datatype App = App(pool: Pool, stopped: bool, requested: nat, completed: nat, servedBy: nat,
                     current: Option<nat>, runs: seq<Run>, callers: map<nat, Caller>)

  /** Entering `processLiveKitRoomRevocations`: its selection succeeds, or throws. */
  datatype Begin = Selecting(selected: seq<Selected>, now: int) | Throwing

  datatype Step =
    | PoolStep(op: Op)
    | Request(caller: nat, begin: Begin)
    | ResumeCaller(caller: nat, begin: Begin)
    | CloseBatch(run: nat)
    | ResumeRun(run: nat, begin: Begin)
    | Finally(run: nat)
    | RowWriteThrows(run: nat, worker: nat)
    | Stop

  ghost predicate CanBegin(pool: Pool, begin: Begin) {
    begin.Selecting? ==> Enabled(pool, Select(|pool.log|, begin.selected, begin.now, BATCH_SIZE))
  }

  ghost predicate CanStep(a: App, step: Step) {
    match step
    case PoolStep(op) =>
      && !op.Select? && !op.FinishBatch? && Enabled(a.pool, op)
      && (op.ThrowRow? ==> forall r | 0 <= r < |a.runs| && a.runs[r].Batching? :: a.runs[r].batch != op.batch)
    case Request(c, begin) => c !in a.callers && CanBegin(a.pool, begin)
    case ResumeCaller(c, begin) =>
      && c in a.callers && a.callers[c].phase.Waiting?
      && a.callers[c].phase.run < |a.runs| && a.runs[a.callers[c].phase.run].Settled?
      && CanBegin(a.pool, begin)
    case CloseBatch(r) =>
      r < |a.runs| && a.runs[r].Batching? && Enabled(a.pool, FinishBatch(a.runs[r].batch))
    case ResumeRun(r, begin) => r < |a.runs| && a.runs[r].Resuming? && CanBegin(a.pool, begin)
    case Finally(r) => r < |a.runs| && a.runs[r].Exited?
    case RowWriteThrows(r, w) => r < |a.runs| && a.runs[r].Batching? && Enabled(a.pool, ThrowRow(a.runs[r].batch, w))
    case Stop => true
  }

  /** Begins batch `number` of an iteration in run r; `first` is None for the iteration's first batch. */
  ghost function BeginBatch(a: App, r: nat, begin: Begin, snapshot: nat, first: Option<nat>, number: nat): App
    requires r < |a.runs| && CanBegin(a.pool, begin)
  {
    if begin.Throwing? then a.(runs := a.runs[r := Exited(true)])
    else
      var batch := |a.pool.log|;
      a.(pool := Apply(a.pool, Select(batch, begin.selected, begin.now, BATCH_SIZE)),
         runs := a.runs[r := Batching(snapshot, if first.Some? then first.value else batch, number, batch)])
  }

  /** The head of the run's `while` loop. */
  ghost function LoopHead(a: App, r: nat, begin: Begin): App
    requires r < |a.runs| && CanBegin(a.pool, begin)
  {
    if !a.stopped && a.completed < a.requested
    then BeginBatch(a, r, begin, a.requested, None, 0)
    else a.(runs := a.runs[r := Exited(false)])
  }

  /** `startLiveKitRevocationWorker`. */
  ghost function StartWorker(a: App, begin: Begin): App
    requires CanBegin(a.pool, begin)
  {
    if a.stopped || a.current.Some? then a
    else LoopHead(a.(current := Some(|a.runs|), runs := a.runs + [Exited(false)]), |a.runs|, begin)
  }

  /** One turn of the caller's `while` loop, from its head to its `await` or its return. */
  ghost function CallerLoop(a: App, c: nat, caller: Caller, begin: Begin): App
    requires CanBegin(a.pool, begin)
  {
    if a.stopped || a.completed >= caller.goal
    then a.(callers := a.callers[c := caller.(phase := Returned(a.stopped))])
    else
      var b := StartWorker(a, begin);
      if b.current.None? then b.(callers := b.callers[c := caller.(phase := Returned(b.stopped))])
      else b.(callers := b.callers[c := caller.(phase := Waiting(b.current.value), awaits := caller.awaits + 1)])
  }

  /** A request before its first await: counted, and not yet waiting for anything. */
  function Registered(a: App, c: nat): App {
    a.(requested := a.requested + 1,
       callers := a.callers[c := Caller(a.requested + 1, |a.pool.log|, 0, Rejected)])
  }

  ghost function Next(a: App, step: Step): App
    requires CanStep(a, step)
  {
    match step
    case PoolStep(op) => a.(pool := Apply(a.pool, op))
    case Request(c, begin) =>
      if a.stopped then a.(callers := a.callers[c := Caller(a.requested, |a.pool.log|, 0, Returned(true))])
      else
        CallerLoop(Registered(a, c), c, Registered(a, c).callers[c], begin)
    case ResumeCaller(c, begin) =>
      var caller := a.callers[c];
      if a.runs[caller.phase.run].failed then a.(callers := a.callers[c := caller.(phase := Rejected)])
      else CallerLoop(a, c, caller, begin)
    case CloseBatch(r) =>
      var Batching(snapshot, first, number, batch) := a.runs[r];
      a.(pool := Apply(a.pool, FinishBatch(batch)),
         runs := a.runs[r := Resuming(snapshot, first, number, |a.pool.batches[batch].selected|)])
    case ResumeRun(r, begin) =>
      var Resuming(snapshot, first, number, selected) := a.runs[r];
      if selected < BATCH_SIZE || number + 1 >= MAX_BATCHES_PER_RUN
      then LoopHead(a.(completed := snapshot, servedBy := first), r, begin)
      else BeginBatch(a, r, begin, snapshot, Some(first), number + 1)
    case Finally(r) => a.(current := None, runs := a.runs[r := Settled(a.runs[r].failed)])
    case RowWriteThrows(r, w) => a.(pool := Apply(a.pool, ThrowRow(a.runs[r].batch, w)), runs := a.runs[r := Exited(true)])
    case Stop => a.(stopped := true)
  }

  ghost predicate LegalRun(a: App, steps: seq<Step>)
    decreases |steps|
  {
    steps == [] || (CanStep(a, steps[0]) && LegalRun(Next(a, steps[0]), steps[1..]))
  }

  ghost function After(a: App, steps: seq<Step>): App
    requires LegalRun(a, steps)
    decreases |steps|
  {
    if steps == [] then a else After(Next(a, steps[0]), steps[1..])
  }

  function Start(rows: Rows): App {
    App(Initial(rows), false, 0, 0, 0, None, [], map[])
  }

  // ----- the runner's own invariant: holds with and without failures

  ghost predicate Live(a: App, r: nat) {
    r < |a.runs| && !a.runs[r].Settled?
  }

  /** Batch b was selected at log position b and has been finished since. */
  ghost predicate Finished(log: seq<Event>, b: nat) {
    b < |log| && log[b] == BatchSelected(b) && BatchFinished(b) in log[b..]
  }

  /** Whatever run r still publishes includes the request `goal`, or it fails, or the app stops. */
  ghost predicate Covers(a: App, r: nat, goal: nat) {
    r < |a.runs| &&
    match a.runs[r]
    case Batching(snapshot, _, _, _) => goal <= snapshot
    case Resuming(snapshot, _, _, _) => goal <= snapshot
    case Exited(failed) => failed || a.stopped || goal <= a.completed
    case Settled(failed) => failed || a.stopped || goal <= a.completed
  }

  ghost predicate RunOk(a: App, run: Run) {
    match run
    case Batching(snapshot, first, number, batch) =>
      && a.completed <= snapshot <= a.requested
      && first < |a.pool.log| && a.pool.log[first] == BatchSelected(first)
      && batch < |a.pool.log| && a.pool.log[batch] == BatchSelected(batch)
      && (first == batch || Finished(a.pool.log, first))
    case Resuming(snapshot, first, number, _) =>
      a.completed <= snapshot <= a.requested && Finished(a.pool.log, first)
    case _ => true
  }

  /**
   A goal is only published by an iteration whose first batch was selected after
   the request; `skip` exempts a run whose next phase is being computed.
   */
  ghost predicate CallerOk(a: App, caller: Caller, skip: int) {
    && caller.goal <= a.requested
    && caller.requestedAt <= |a.pool.log|
    && (caller.phase != Returned(true) ==>
          && 0 < caller.goal
          && (caller.goal <= a.completed ==> caller.requestedAt <= a.servedBy)
          && (forall r: nat | Live(a, r) && (a.runs[r].Batching? || a.runs[r].Resuming?) && caller.goal <= a.runs[r].snapshot ::
                caller.requestedAt <= a.runs[r].first))
    && (caller.phase == Returned(false) ==> caller.goal <= a.completed)
    && caller.awaits <= 2
    && (caller.phase.Waiting? ==>
          && caller.phase.run < |a.runs|
          && 1 <= caller.awaits
          && (forall r: nat | Live(a, r) && r != caller.phase.run && r != skip :: Covers(a, r, caller.goal))
          && (caller.awaits == 2 && caller.phase.run != skip ==> Covers(a, caller.phase.run, caller.goal)))
  }

  ghost predicate InvBut(a: App, skip: int) {
    && a.completed <= a.requested
    && (a.completed > 0 ==> Finished(a.pool.log, a.servedBy))
    && (a.current.Some? ==> Live(a, a.current.value))
    && (forall r: nat | Live(a, r) :: a.current == Some(r))
    && (forall r | 0 <= r < |a.runs| :: RunOk(a, a.runs[r]))
    && (forall c | c in a.callers :: CallerOk(a, a.callers[c], skip))
  }

  ghost predicate RunnerInv(a: App) {
    InvBut(a, -1)
  }

  lemma FinishedLater(log: seq<Event>, more: seq<Event>, b: nat)
    requires Finished(log, b) && log <= more
    ensures Finished(more, b)
  {
    var k :| b <= k < |log| && log[k] == BatchFinished(b);
    assert more[b..][k - b] == BatchFinished(b);
  }

  /** Growing the log alone keeps the invariant. */
  lemma LogGrows(a: App, pool: Pool, skip: int)
    requires InvBut(a, skip) && a.pool.log <= pool.log
    ensures InvBut(a.(pool := pool), skip)
  {
    var b := a.(pool := pool);
    if a.completed > 0 {
      FinishedLater(a.pool.log, pool.log, a.servedBy);
    }
    forall r | 0 <= r < |b.runs| ensures RunOk(b, b.runs[r]) {
      assert RunOk(a, a.runs[r]);
      if (a.runs[r].Batching? || a.runs[r].Resuming?) && Finished(a.pool.log, a.runs[r].first) {
        FinishedLater(a.pool.log, pool.log, a.runs[r].first);
      }
    }
    forall c | c in b.callers ensures CallerOk(b, b.callers[c], skip) {
      assert CallerOk(a, a.callers[c], skip);
      assert forall r: nat :: Live(b, r) == Live(a, r);
      assert forall r: nat, goal: nat :: Covers(b, r, goal) == Covers(a, r, goal);
    }
  }

  /** Moving the live run r to a phase that covers every goal it has to. */
  lemma RunMoves(a: App, r: nat, run: Run, skip: int)
    requires InvBut(a, skip) && Live(a, r) && (skip == -1 || skip == r) && !run.Settled?
    requires RunOk(a, run)
    requires forall c | c in a.callers :: var caller := a.callers[c];
      && ((run.Batching? || run.Resuming?) && caller.goal <= run.snapshot && caller.phase != Returned(true) ==>
            caller.requestedAt <= run.first)
      && (caller.phase.Waiting? && (caller.phase.run != r || caller.awaits == 2) ==>
            Covers(a.(runs := a.runs[r := run]), r, caller.goal))
    ensures RunnerInv(a.(runs := a.runs[r := run]))
  {
    var b := a.(runs := a.runs[r := run]);
    forall k | 0 <= k < |b.runs| ensures RunOk(b, b.runs[k]) {
      assert k != r ==> RunOk(a, a.runs[k]);
    }
    assert forall k: nat :: Live(b, k) == Live(a, k);
    forall c | c in b.callers ensures CallerOk(b, b.callers[c], -1) {
      assert CallerOk(a, a.callers[c], skip);
      assert forall k: nat, goal: nat | k != r :: Covers(b, k, goal) == Covers(a, k, goal);
    }
  }

  lemma BeginKeeps(a: App, r: nat, begin: Begin, snapshot: nat, first: Option<nat>, number: nat, skip: int)
    requires InvBut(a, skip) && Live(a, r) && (skip == -1 || skip == r) && CanBegin(a.pool, begin)
    requires a.completed <= snapshot <= a.requested
    requires first.Some? ==> Finished(a.pool.log, first.value)
    requires forall c | c in a.callers :: var caller := a.callers[c];
      && (first.Some? && caller.goal <= snapshot && caller.phase != Returned(true) ==> caller.requestedAt <= first.value)
      && (caller.phase.Waiting? && (caller.phase.run != r || caller.awaits == 2) ==> caller.goal <= snapshot)
    ensures RunnerInv(BeginBatch(a, r, begin, snapshot, first, number))
    ensures begin.Selecting? ==> BeginBatch(a, r, begin, snapshot, first, number).runs[r].Batching?
  {
    assert forall c | c in a.callers :: CallerOk(a, a.callers[c], skip);
    if begin.Throwing? {
      RunMoves(a, r, Exited(true), skip);
    } else {
      var batch := |a.pool.log|;
      var pool := Apply(a.pool, Select(batch, begin.selected, begin.now, BATCH_SIZE));
      LogGrows(a, pool, skip);
      if first.Some? {
        FinishedLater(a.pool.log, pool.log, first.value);
      }
      var run := Batching(snapshot, if first.Some? then first.value else batch, number, batch);
      RunMoves(a.(pool := pool), r, run, skip);
    }
  }

  /** The loop head always ends in a phase that covers every request made so far. */
  lemma LoopHeadKeeps(a: App, r: nat, begin: Begin)
    requires InvBut(a, r) && Live(a, r) && CanBegin(a.pool, begin)
    ensures RunnerInv(LoopHead(a, r, begin))
    ensures forall goal: nat | goal <= a.requested :: Covers(LoopHead(a, r, begin), r, goal)
  {
    assert forall c | c in a.callers :: CallerOk(a, a.callers[c], r);
    if !a.stopped && a.completed < a.requested {
      BeginKeeps(a, r, begin, a.requested, None, 0, r);
    } else {
      RunMoves(a, r, Exited(false), r);
    }
  }

  lemma StartWorkerKeeps(a: App, begin: Begin)
    requires RunnerInv(a) && CanBegin(a.pool, begin)
    ensures RunnerInv(StartWorker(a, begin))
    ensures !a.stopped && a.current.None? ==>
      forall goal: nat | goal <= a.requested :: Covers(StartWorker(a, begin), |a.runs|, goal)
  {
    if !a.stopped && a.current.None? {
      var r := |a.runs|;
      var b := a.(current := Some(r), runs := a.runs + [Exited(false)]);
      forall k: nat ensures Live(b, k) <==> k == r {
        assert !Live(a, k);
        assert k < r ==> b.runs[k] == a.runs[k];
      }
      forall k | 0 <= k < |b.runs| ensures RunOk(b, b.runs[k]) {
        assert k != r ==> RunOk(a, a.runs[k]);
      }
      forall c | c in b.callers ensures CallerOk(b, b.callers[c], r) {
        assert CallerOk(a, a.callers[c], -1);
        assert forall k: nat, goal: nat | k < r :: Covers(b, k, goal) == Covers(a, k, goal);
      }
      LoopHeadKeeps(b, r, begin);
    }
  }

  lemma OnlyCallerMoves(a: App, c: nat, caller: Caller)
    requires RunnerInv(a) && CallerOk(a, caller, -1)
    ensures RunnerInv(a.(callers := a.callers[c := caller]))
  {
    var b := a.(callers := a.callers[c := caller]);
    assert forall r: nat :: Live(b, r) == Live(a, r);
    assert forall r: nat, goal: nat :: Covers(b, r, goal) == Covers(a, r, goal);
    assert forall r | 0 <= r < |b.runs| :: RunOk(a, a.runs[r]) ==> RunOk(b, b.runs[r]);
    forall d | d in b.callers ensures CallerOk(b, b.callers[d], -1) {
      assert d != c ==> CallerOk(a, a.callers[d], -1);
    }
  }

  /** A caller that goes on waiting awaits a run that covers its goal from its second await on. */
  lemma CallerWaits(a: App, c: nat, caller: Caller)
    requires RunnerInv(a) && c in a.callers && a.callers[c] == caller && a.current.Some?
    requires caller.phase != Returned(true) && caller.awaits <= 1
    requires caller.awaits == 1 ==> Covers(a, a.current.value, caller.goal)
    ensures RunnerInv(a.(callers := a.callers[c := caller.(phase := Waiting(a.current.value), awaits := caller.awaits + 1)]))
  {
    assert CallerOk(a, caller, -1);
    assert Live(a, a.current.value);
    OnlyCallerMoves(a, c, caller.(phase := Waiting(a.current.value), awaits := caller.awaits + 1));
  }

  /** The caller's goal is not served yet: it makes sure that a worker runs, and waits for it. */
  lemma CallerStartsAndWaits(a: App, c: nat, begin: Begin, caller: Caller, b: App)
    requires RunnerInv(a) && CanBegin(a.pool, begin) && c in a.callers && caller == a.callers[c]
    requires !a.stopped && a.completed < caller.goal <= a.requested && caller.awaits <= 1 && caller.phase != Returned(true)
    requires caller.awaits == 1 ==> forall r: nat | Live(a, r) :: Covers(a, r, caller.goal)
    requires b == StartWorker(a, begin)
    ensures RunnerInv(b) && b.callers == a.callers && b.current.Some?
    ensures caller.awaits == 1 ==> Covers(b, b.current.value, caller.goal)
  {
    StartWorkerKeeps(a, begin);
    assert b.current == if a.current.Some? then a.current else Some(|a.runs|);
  }

  lemma CallerLoopKeeps(a: App, c: nat, begin: Begin)
    requires RunnerInv(a) && CanBegin(a.pool, begin) && c in a.callers
    requires !a.stopped && a.completed < a.callers[c].goal ==>
      && a.callers[c].awaits <= 1
      && (a.callers[c].awaits == 1 ==> forall r: nat | Live(a, r) :: Covers(a, r, a.callers[c].goal))
    requires a.callers[c].phase != Returned(true)
    ensures RunnerInv(CallerLoop(a, c, a.callers[c], begin))
  {
    var caller := a.callers[c];
    var d := CallerLoop(a, c, caller, begin);
    assert CallerOk(a, caller, -1);
    if a.stopped || a.completed >= caller.goal {
      var returned := caller.(phase := Returned(a.stopped));
      assert d == a.(callers := a.callers[c := returned]);
      OnlyCallerMoves(a, c, returned);
    } else {
      var b := StartWorker(a, begin);
      CallerStartsAndWaits(a, c, begin, caller, b);
      CallerWaits(b, c, caller);
      assert d == b.(callers := b.callers[c := caller.(phase := Waiting(b.current.value), awaits := caller.awaits + 1)]);
    }
  }

  lemma RegisterKeeps(a: App, c: nat)
    requires RunnerInv(a) && c !in a.callers
    ensures RunnerInv(Registered(a, c))
  {
    var b := Registered(a, c);
    assert forall r: nat :: Live(b, r) == Live(a, r);
    assert forall r | 0 <= r < |b.runs| :: RunOk(a, a.runs[r]) && (RunOk(a, a.runs[r]) ==> RunOk(b, b.runs[r]));
    forall d | d in b.callers ensures CallerOk(b, b.callers[d], -1) {
      assert d != c ==> CallerOk(a, a.callers[d], -1);
      assert forall r: nat, goal: nat :: Covers(b, r, goal) == Covers(a, r, goal);
    }
  }

  lemma RequestKeeps(a: App, c: nat, begin: Begin)
    requires RunnerInv(a) && CanStep(a, Request(c, begin))
    ensures RunnerInv(Next(a, Request(c, begin)))
  {
    if a.stopped {
      OnlyCallerMoves(a, c, Caller(a.requested, |a.pool.log|, 0, Returned(true)));
    } else {
      RegisterKeeps(a, c);
      CallerLoopKeeps(Registered(a, c), c, begin);
    }
  }

  lemma FinallyKeeps(a: App, r: nat)
    requires RunnerInv(a) && CanStep(a, Finally(r))
    ensures RunnerInv(Next(a, Finally(r)))
  {
    var b := Next(a, Finally(r));
    forall k: nat ensures !Live(b, k) {
      assert Live(a, r);
      assert k < |a.runs| && k != r ==> !Live(a, k) && b.runs[k] == a.runs[k];
    }
    forall k | 0 <= k < |b.runs| ensures RunOk(b, b.runs[k]) {
      assert RunOk(a, a.runs[k]);
    }
    forall d | d in b.callers ensures CallerOk(b, b.callers[d], -1) {
      assert CallerOk(a, a.callers[d], -1);
      assert forall k: nat, goal: nat :: Covers(b, k, goal) == Covers(a, k, goal);
    }
  }

  lemma StopKeeps(a: App)
    requires RunnerInv(a)
    ensures RunnerInv(a.(stopped := true))
  {
    var b := a.(stopped := true);
    assert forall k: nat :: Live(b, k) == Live(a, k);
    forall k | 0 <= k < |b.runs| ensures RunOk(b, b.runs[k]) {
      assert RunOk(a, a.runs[k]);
    }
    forall d | d in b.callers ensures CallerOk(b, b.callers[d], -1) {
      assert CallerOk(a, a.callers[d], -1);
      assert forall k: nat, goal: nat :: Covers(a, k, goal) ==> Covers(b, k, goal);
    }
  }

  lemma ResumeCallerKeeps(a: App, c: nat, begin: Begin)
    requires RunnerInv(a) && CanStep(a, ResumeCaller(c, begin))
    ensures RunnerInv(Next(a, ResumeCaller(c, begin)))
  {
    var caller := a.callers[c];
    assert CallerOk(a, caller, -1);
    if a.runs[caller.phase.run].failed {
      OnlyCallerMoves(a, c, caller.(phase := Rejected));
    } else {
      CallerLoopKeeps(a, c, begin);
    }
  }

  lemma StepKeepsRunner(a: App, step: Step)
    requires RunnerInv(a) && CanStep(a, step)
    ensures RunnerInv(Next(a, step))
  {
    match step
    case PoolStep(op) => LogGrows(a, Apply(a.pool, op), -1);
    case Request(c, begin) => RequestKeeps(a, c, begin);
    case ResumeCaller(c, begin) => ResumeCallerKeeps(a, c, begin);
    case CloseBatch(r) => CloseKeeps(a, r);
    case ResumeRun(r, begin) => ResumeRunKeeps(a, r, begin);
    case Finally(r) => FinallyKeeps(a, r);
    case RowWriteThrows(r, w) =>
      var pool := Apply(a.pool, ThrowRow(a.runs[r].batch, w));
      assert Live(a, r);
      LogGrows(a, pool, -1);
      assert forall c | c in a.callers :: CallerOk(a.(pool := pool), a.callers[c], -1);
      RunMoves(a.(pool := pool), r, Exited(true), -1);
    case Stop => StopKeeps(a);
  }

  lemma CloseKeeps(a: App, r: nat)
    requires RunnerInv(a) && CanStep(a, CloseBatch(r))
    ensures RunnerInv(Next(a, CloseBatch(r)))
  {
    var Batching(snapshot, first, number, batch) := a.runs[r];
    var pool := Apply(a.pool, FinishBatch(batch));
    assert RunOk(a, a.runs[r]);
    assert pool.log[batch..][|a.pool.log| - batch] == BatchFinished(batch);
    if first != batch {
      FinishedLater(a.pool.log, pool.log, first);
    }
    LogGrows(a, pool, -1);
    var b := a.(pool := pool);
    assert forall c | c in b.callers :: CallerOk(b, b.callers[c], -1);
    assert Live(b, r);
    RunMoves(b, r, Resuming(snapshot, first, number, |a.pool.batches[batch].selected|), -1);
  }

  lemma PublishKeeps(a: App, r: nat)
    requires RunnerInv(a) && Live(a, r) && a.runs[r].Resuming?
    ensures InvBut(a.(completed := a.runs[r].snapshot, servedBy := a.runs[r].first), r)
  {
    var b := a.(completed := a.runs[r].snapshot, servedBy := a.runs[r].first);
    assert RunOk(a, a.runs[r]);
    assert forall k: nat :: Live(b, k) == Live(a, k);
    forall k | 0 <= k < |b.runs| ensures RunOk(b, b.runs[k]) {
      assert RunOk(a, a.runs[k]);
      assert Live(a, k) ==> k == r;
    }
    forall c | c in b.callers ensures CallerOk(b, b.callers[c], r) {
      assert CallerOk(a, a.callers[c], -1);
      assert forall k: nat, goal: nat | Covers(a, k, goal) && k != r :: Covers(b, k, goal);
    }
  }

  lemma ContinueKeeps(a: App, r: nat, begin: Begin)
    requires RunnerInv(a) && CanStep(a, ResumeRun(r, begin))
    ensures RunnerInv(BeginBatch(a, r, begin, a.runs[r].snapshot, Some(a.runs[r].first), a.runs[r].number + 1))
  {
    assert Live(a, r) && RunOk(a, a.runs[r]);
    assert forall c | c in a.callers :: CallerOk(a, a.callers[c], -1);
    BeginKeeps(a, r, begin, a.runs[r].snapshot, Some(a.runs[r].first), a.runs[r].number + 1, -1);
  }

  lemma ResumeRunKeeps(a: App, r: nat, begin: Begin)
    requires RunnerInv(a) && CanStep(a, ResumeRun(r, begin))
    ensures RunnerInv(Next(a, ResumeRun(r, begin)))
  {
    var Resuming(snapshot, first, number, selected) := a.runs[r];
    assert Live(a, r);
    if selected < BATCH_SIZE || number + 1 >= MAX_BATCHES_PER_RUN {
      PublishKeeps(a, r);
      LoopHeadKeeps(a.(completed := snapshot, servedBy := first), r, begin);
    } else {
      ContinueKeeps(a, r, begin);
    }
  }

  lemma {:induction false} RunnerRun(a: App, steps: seq<Step>)
    requires RunnerInv(a) && LegalRun(a, steps)
    ensures RunnerInv(After(a, steps))
    decreases |steps|
  {
    if steps != [] {
      StepKeepsRunner(a, steps[0]);
      RunnerRun(Next(a, steps[0]), steps[1..]);
    }
  }

  /** A batch that began after `requestedAt` and has been finished. */
  ghost predicate ServedAfter(log: seq<Event>, requestedAt: nat) {
    exists b: nat :: requestedAt <= b && Finished(log, b)
  }

  /**
   No lost wakeup: in every run, failures and row-write errors included, a request
   that returned without seeing a stop was served by a batch whose selection began
   after the request; and no caller ever awaits more than two runs.
   */
  lemma NoLostWakeup(rows: Rows, steps: seq<Step>, c: nat)
    requires LegalRun(Start(rows), steps) && c in After(Start(rows), steps).callers
    ensures var a := After(Start(rows), steps); var caller := a.callers[c];
      && caller.awaits <= 2
      && (caller.phase == Returned(false) ==> ServedAfter(a.pool.log, caller.requestedAt))
  {
    RunnerRun(Start(rows), steps);
    var a := After(Start(rows), steps);
    assert CallerOk(a, a.callers[c], -1);
    if a.callers[c].phase == Returned(false) {
      assert Finished(a.pool.log, a.servedBy);
    }
  }

  // ----- nobody is stuck

  ghost predicate NoneEnded(batch: Batch) {
    forall w | 0 <= w < |batch.workers| :: !batch.workers[w].Ended?
  }

  /** A run that waits for its batch has it in flight, with all its workers. */
  ghost predicate Owned(a: App) {
    && Inv(a.pool)
    && (forall r | 0 <= r < |a.runs| && a.runs[r].Batching? ::
          a.runs[r].batch in a.pool.batches && NoneEnded(a.pool.batches[a.runs[r].batch]))
    && (forall b | b in a.pool.batches :: b < |a.pool.log|)
  }

  lemma BeginKeepsOwned(a: App, r: nat, begin: Begin, snapshot: nat, first: Option<nat>, number: nat)
    requires Owned(a) && r < |a.runs| && CanBegin(a.pool, begin)
    ensures Owned(BeginBatch(a, r, begin, snapshot, first, number))
  {
    var b := BeginBatch(a, r, begin, snapshot, first, number);
    if begin.Selecting? {
      StepKeepsInv(a.pool, Select(|a.pool.log|, begin.selected, begin.now, BATCH_SIZE));
      assert NoneEnded(b.pool.batches[|a.pool.log|]);
    }
  }

  lemma LoopHeadKeepsOwned(a: App, r: nat, begin: Begin)
    requires Owned(a) && r < |a.runs| && CanBegin(a.pool, begin)
    ensures Owned(LoopHead(a, r, begin))
  {
    if !a.stopped && a.completed < a.requested {
      BeginKeepsOwned(a, r, begin, a.requested, None, 0);
    }
  }

  lemma CallerLoopKeepsOwned(a: App, c: nat, caller: Caller, begin: Begin)
    requires Owned(a) && CanBegin(a.pool, begin)
    ensures Owned(CallerLoop(a, c, caller, begin))
  {
    if !a.stopped && a.current.None? {
      LoopHeadKeepsOwned(a.(current := Some(|a.runs|), runs := a.runs + [Exited(false)]), |a.runs|, begin);
    }
  }

  lemma BatchStaysWhole(p: Pool, op: Op, b: nat)
    requires Enabled(p, op) && b in p.batches && NoneEnded(p.batches[b]) && !op.Select?
    requires (op.FinishBatch? || op.ThrowRow?) ==> op.batch != b
    ensures b in Apply(p, op).batches && NoneEnded(Apply(p, op).batches[b])
  {
  }

  lemma PoolStepKeepsOwned(a: App, op: Op)
    requires Owned(a) && CanStep(a, PoolStep(op))
    ensures Owned(Next(a, PoolStep(op)))
  {
    StepKeepsInv(a.pool, op);
    var b := Next(a, PoolStep(op));
    forall r | 0 <= r < |b.runs| && b.runs[r].Batching?
      ensures b.runs[r].batch in b.pool.batches && NoneEnded(b.pool.batches[b.runs[r].batch])
    {
      BatchStaysWhole(a.pool, op, a.runs[r].batch);
    }
  }

  /** Two runs never wait for batches at the same time. */
  lemma OnlyOneBatching(a: App, r: nat, k: nat)
    requires RunnerInv(a) && r < |a.runs| && k < |a.runs| && a.runs[r].Batching? && a.runs[k].Batching?
    ensures r == k
  {
    assert Live(a, r) && Live(a, k);
  }

  /** The run gives its batch up, to be closed or after a throw; it is no other run's batch. */
  lemma LeavingKeepsOwned(a: App, r: nat, op: Op, run: Run)
    requires RunnerInv(a) && Owned(a) && r < |a.runs| && a.runs[r].Batching? && !run.Batching?
    requires (op.FinishBatch? || op.ThrowRow?) && op.batch == a.runs[r].batch && Enabled(a.pool, op)
    ensures Owned(a.(pool := Apply(a.pool, op), runs := a.runs[r := run]))
  {
    StepKeepsInv(a.pool, op);
    forall k | 0 <= k < |a.runs| && k != r ensures !a.runs[k].Batching? {
      if a.runs[k].Batching? {
        OnlyOneBatching(a, r, k);
      }
    }
  }

  lemma ResumeKeepsOwned(a: App, r: nat, begin: Begin)
    requires Owned(a) && CanStep(a, ResumeRun(r, begin))
    ensures Owned(Next(a, ResumeRun(r, begin)))
  {
    var Resuming(snapshot, first, number, selected) := a.runs[r];
    if selected < BATCH_SIZE || number + 1 >= MAX_BATCHES_PER_RUN {
      LoopHeadKeepsOwned(a.(completed := snapshot, servedBy := first), r, begin);
    } else {
      BeginKeepsOwned(a, r, begin, snapshot, Some(first), number + 1);
    }
  }

  lemma StepKeepsOwned(a: App, step: Step)
    requires RunnerInv(a) && Owned(a) && CanStep(a, step)
    ensures Owned(Next(a, step))
  {
    match step
    case PoolStep(op) => PoolStepKeepsOwned(a, op);
    case Request(c, begin) =>
      if !a.stopped {
        CallerLoopKeepsOwned(Registered(a, c), c, Registered(a, c).callers[c], begin);
      }
    case ResumeCaller(c, begin) => CallerLoopKeepsOwned(a, c, a.callers[c], begin);
    case CloseBatch(r) => LeavingKeepsOwned(a, r, FinishBatch(a.runs[r].batch), Next(a, step).runs[r]);
    case ResumeRun(r, begin) => ResumeKeepsOwned(a, r, begin);
    case RowWriteThrows(r, w) => LeavingKeepsOwned(a, r, ThrowRow(a.runs[r].batch, w), Exited(true));
    case _ =>
  }

  lemma {:induction false} OwnedRun(a: App, steps: seq<Step>)
    requires RunnerInv(a) && Owned(a) && LegalRun(a, steps)
    ensures RunnerInv(After(a, steps)) && Owned(After(a, steps))
    decreases |steps|
  {
    if steps != [] {
      StepKeepsRunner(a, steps[0]);
      StepKeepsOwned(a, steps[0]);
      OwnedRun(Next(a, steps[0]), steps[1..]);
    }
  }

  ghost predicate RunCanStep(a: App, r: nat) {
    || CanStep(a, Finally(r))
    || CanStep(a, ResumeRun(r, Throwing))
    || CanStep(a, CloseBatch(r))
    || (r < |a.runs| && a.runs[r].Batching? && exists op: Op :: CanStep(a, PoolStep(op)) && StepsBatch(op, a.runs[r].batch))
  }

  /** A step of a worker of the batch. */
  predicate StepsBatch(op: Op, b: nat) {
    (op.StartRpc? || op.AnswerRpc? || op.SettleRow?) && op.batch == b
  }

  lemma LiveRunProgresses(a: App, r: nat)
    requires Owned(a) && Live(a, r)
    ensures RunCanStep(a, r)
  {
    if a.runs[r].Batching? {
      var b := a.runs[r].batch;
      var batch := a.pool.batches[b];
      assert BatchOk(a.pool.log, b, batch) && NoneEnded(batch);
      if w :| 0 <= w < |batch.workers| && !batch.workers[w].Idle? {
        assert WorkerOk(a.pool.log, b, batch, batch.workers[w]);
        var op := if batch.workers[w].Calling? then AnswerRpc(b, w, Failed) else SettleRow(b, w, 0);
        assert CanStep(a, PoolStep(op)) && StepsBatch(op, b);
      } else if batch.cursor < |batch.selected| {
        assert batch.workers[0].Idle?;
        assert CanStep(a, PoolStep(StartRpc(b, 0))) && StepsBatch(StartRpc(b, 0), b);
      } else {
        assert CanStep(a, CloseBatch(r));
      }
    }
  }

  /** Nobody is stuck, failures included: a waiting caller can resume, or the run it waits for has an enabled step. */
  lemma WaitingCallersProgress(rows: Rows, steps: seq<Step>, c: nat)
    requires LegalRun(Start(rows), steps) && c in After(Start(rows), steps).callers
    requires After(Start(rows), steps).callers[c].phase.Waiting?
    ensures var a := After(Start(rows), steps);
      CanStep(a, ResumeCaller(c, Throwing)) || RunCanStep(a, a.callers[c].phase.run)
  {
    OwnedRun(Start(rows), steps);
    var a := After(Start(rows), steps);
    assert CallerOk(a, a.callers[c], -1);
    if Live(a, a.callers[c].phase.run) {
      LiveRunProgresses(a, a.callers[c].phase.run);
    }
  }

  // ----- one batch at a time

  /** A batch that can still do something is the one the unsettled run waits for. */
  ghost predicate OneBatch(a: App) {
    forall b | b in a.pool.batches && Active(a.pool.batches[b]) ::
      exists r: nat :: Live(a, r) && a.runs[r].Batching? && a.runs[r].batch == b
  }

  ghost predicate AppInv(a: App) {
    RunnerInv(a) && Owned(a) && OneBatch(a) && SafeInv(a.pool)
  }

  /** Another worker of the batch than w is unfinished: it holds a row, or will take one. */
  ghost predicate OthersUnfinished(batch: Batch, w: nat) {
    || (exists v: nat :: v != w && Busying(WorkerIn(batch, v)))
    || (batch.cursor < |batch.selected| && exists v: nat :: v != w && !WorkerIn(batch, v).Ended?)
  }

  /** The step is a throwing row write, and it leaves a worker of its batch behind. */
  ghost predicate LeavesWorkers(a: App, step: Step)
    requires CanStep(a, step)
  {
    step.RowWriteThrows? && OthersUnfinished(a.pool.batches[a.runs[step.run].batch], step.worker)
  }

  lemma ActiveAfterThrow(p: Pool, b: nat, w: nat)
    requires Enabled(p, ThrowRow(b, w))
    ensures Active(Apply(p, ThrowRow(b, w)).batches[b]) <==> OthersUnfinished(p.batches[b], w)
  {
    var batch, next := p.batches[b], Apply(p, ThrowRow(b, w)).batches[b];
    assert forall v: nat :: WorkerIn(next, v) == if v == w then Ended(batch.workers[w].index) else WorkerIn(batch, v);
  }

  lemma NothingInFlight(a: App, r: nat)
    requires AppInv(a) && Live(a, r) && !a.runs[r].Batching?
    ensures NoneActive(a.pool)
  {
    assert forall k: nat | Live(a, k) :: a.current == Some(k) && a.current == Some(r);
  }

  lemma BeginIsSerial(a: App, r: nat, begin: Begin, snapshot: nat, first: Option<nat>, number: nat)
    requires SafeInv(a.pool) && NoneActive(a.pool)
    requires r < |a.runs| && !a.runs[r].Settled? && CanBegin(a.pool, begin)
    ensures var b := BeginBatch(a, r, begin, snapshot, first, number); OneBatch(b) && SafeInv(b.pool)
  {
    var b := BeginBatch(a, r, begin, snapshot, first, number);
    if begin.Selecting? {
      StepKeepsSafe(a.pool, Select(|a.pool.log|, begin.selected, begin.now, BATCH_SIZE));
      assert Live(b, r) && b.runs[r].batch == |a.pool.log|;
    }
  }

  lemma LoopHeadIsSerial(a: App, r: nat, begin: Begin)
    requires SafeInv(a.pool) && NoneActive(a.pool)
    requires r < |a.runs| && !a.runs[r].Settled? && CanBegin(a.pool, begin)
    ensures var b := LoopHead(a, r, begin); OneBatch(b) && SafeInv(b.pool)
  {
    if !a.stopped && a.completed < a.requested {
      BeginIsSerial(a, r, begin, a.requested, None, 0);
    }
  }

  lemma CallerLoopIsSerial(a: App, c: nat, caller: Caller, begin: Begin)
    requires RunnerInv(a) && OneBatch(a) && SafeInv(a.pool) && CanBegin(a.pool, begin)
    ensures var b := CallerLoop(a, c, caller, begin); OneBatch(b) && SafeInv(b.pool)
  {
    var b := CallerLoop(a, c, caller, begin);
    if !a.stopped && a.completed < caller.goal && a.current.None? {
      assert forall k: nat :: !Live(a, k);
      assert NoneActive(a.pool);
      LoopHeadIsSerial(a.(current := Some(|a.runs|), runs := a.runs + [Exited(false)]), |a.runs|, begin);
      SameRuns(StartWorker(a, begin), b);
    } else {
      SameRuns(a, b);
    }
  }

  lemma SameRuns(a: App, b: App)
    requires OneBatch(a) && a.runs == b.runs
    requires forall k | k in b.pool.batches && Active(b.pool.batches[k]) :: k in a.pool.batches && Active(a.pool.batches[k])
    ensures OneBatch(b)
  {
    assert forall k: nat :: Live(a, k) == Live(b, k);
  }

  lemma PoolStepIsSerial(a: App, op: Op)
    requires OneBatch(a) && SafeInv(a.pool) && CanStep(a, PoolStep(op))
    ensures OneBatch(Next(a, PoolStep(op))) && SafeInv(Next(a, PoolStep(op)).pool)
  {
    StepKeepsSafe(a.pool, op);
    var b := Next(a, PoolStep(op));
    forall k | k in b.pool.batches && Active(b.pool.batches[k])
      ensures k in a.pool.batches && Active(a.pool.batches[k])
    {
      ActiveBefore(a.pool, op, k);
    }
    SameRuns(a, b);
  }

  /** The batch the live run waits for is the only one that can still do anything. */
  lemma OnlyItsBatch(a: App, r: nat)
    requires RunnerInv(a) && OneBatch(a) && r < |a.runs| && a.runs[r].Batching?
    ensures forall b | b in a.pool.batches && b != a.runs[r].batch :: !Active(a.pool.batches[b])
  {
    assert Live(a, r) && forall k: nat | Live(a, k) :: a.current == Some(k) && a.current == Some(r);
  }

  lemma CloseIsSerial(a: App, r: nat)
    requires AppInv(a) && CanStep(a, CloseBatch(r))
    ensures OneBatch(Next(a, CloseBatch(r))) && SafeInv(Next(a, CloseBatch(r)).pool)
  {
    OnlyItsBatch(a, r);
    StepKeepsSafe(a.pool, FinishBatch(a.runs[r].batch));
  }

  lemma ThrowEndsBatch(p: Pool, b: nat, w: nat)
    requires Enabled(p, ThrowRow(b, w)) && !OthersUnfinished(p.batches[b], w)
    requires forall k | k in p.batches && k != b :: !Active(p.batches[k])
    ensures NoneActive(Apply(p, ThrowRow(b, w)))
  {
    ActiveAfterThrow(p, b, w);
    var q := Apply(p, ThrowRow(b, w));
    assert forall k | k in q.batches && k != b :: q.batches[k] == p.batches[k];
  }

  lemma ThrowIsSerial(a: App, r: nat, w: nat)
    requires AppInv(a) && CanStep(a, RowWriteThrows(r, w)) && !OthersUnfinished(a.pool.batches[a.runs[r].batch], w)
    ensures NoneActive(Next(a, RowWriteThrows(r, w)).pool) && SafeInv(Next(a, RowWriteThrows(r, w)).pool)
  {
    OnlyItsBatch(a, r);
    ThrowEndsBatch(a.pool, a.runs[r].batch, w);
    StepKeepsSafe(a.pool, ThrowRow(a.runs[r].batch, w));
  }

  lemma CallerStepIsSerial(a: App, step: Step)
    requires AppInv(a) && CanStep(a, step) && (step.Request? || step.ResumeCaller?)
    ensures OneBatch(Next(a, step)) && SafeInv(Next(a, step).pool)
  {
    var b := Next(a, step);
    match step
    case Request(c, begin) =>
      if a.stopped {
        SameRuns(a, b);
      } else {
        RegisterKeeps(a, c);
        var d := Registered(a, c);
        SameRuns(a, d);
        CallerLoopIsSerial(d, c, d.callers[c], begin);
      }
    case ResumeCaller(c, begin) =>
      if a.runs[a.callers[c].phase.run].failed {
        SameRuns(a, b);
      } else {
        CallerLoopIsSerial(a, c, a.callers[c], begin);
      }
  }

  lemma ResumeRunIsSerial(a: App, r: nat, begin: Begin)
    requires AppInv(a) && CanStep(a, ResumeRun(r, begin))
    ensures OneBatch(Next(a, ResumeRun(r, begin))) && SafeInv(Next(a, ResumeRun(r, begin)).pool)
  {
    assert Live(a, r);
    NothingInFlight(a, r);
    ResumedIsSerial(a, r, begin);
  }

  lemma ResumedIsSerial(a: App, r: nat, begin: Begin)
    requires NoneActive(a.pool) && SafeInv(a.pool) && CanStep(a, ResumeRun(r, begin))
    ensures OneBatch(Next(a, ResumeRun(r, begin))) && SafeInv(Next(a, ResumeRun(r, begin)).pool)
  {
    var run := a.runs[r];
    if run.selected < BATCH_SIZE || run.number + 1 >= MAX_BATCHES_PER_RUN {
      LoopHeadIsSerial(a.(completed := run.snapshot, servedBy := run.first), r, begin);
    } else {
      BeginIsSerial(a, r, begin, run.snapshot, Some(run.first), run.number + 1);
    }
  }

  /** Every step keeps to one batch, but for a throw that leaves a worker behind. */
  lemma StepKeepsApp(a: App, step: Step)
    requires AppInv(a) && CanStep(a, step) && !LeavesWorkers(a, step)
    ensures AppInv(Next(a, step))
  {
    StepKeepsRunner(a, step);
    StepKeepsOwned(a, step);
    match step
    case PoolStep(op) => PoolStepIsSerial(a, op);
    case Request(_, _) => CallerStepIsSerial(a, step);
    case ResumeCaller(_, _) => CallerStepIsSerial(a, step);
    case CloseBatch(r) => CloseIsSerial(a, r);
    case ResumeRun(r, begin) => ResumeRunIsSerial(a, r, begin);
    case Finally(r) => NothingInFlight(a, r);
    case RowWriteThrows(r, w) => ThrowIsSerial(a, r, w);
    case Stop => SameRuns(a, Next(a, step));
  }

  /** No row write throws while another worker of its batch is unfinished. */
  ghost predicate NobodyLeft(a: App, steps: seq<Step>)
    requires LegalRun(a, steps)
    decreases |steps|
  {
    steps == [] || (!LeavesWorkers(a, steps[0]) && NobodyLeft(Next(a, steps[0]), steps[1..]))
  }

  lemma {:induction false} AppRun(a: App, steps: seq<Step>)
    requires AppInv(a) && LegalRun(a, steps) && NobodyLeft(a, steps)
    ensures AppInv(After(a, steps))
    decreases |steps|
  {
    if steps != [] {
      StepKeepsApp(a, steps[0]);
      AppRun(Next(a, steps[0]), steps[1..]);
    }
  }

  /**
   In every run of the application, failures and throwing row writes included, unless a
   throw leaves an unfinished worker behind: at most one batch can still do anything, and
   every acknowledgement in the outbox is justified.
   */
  lemma ApplicationNeverLosesARevocation(rows: Rows, steps: seq<Step>)
    requires LegalRun(Start(rows), steps) && NobodyLeft(Start(rows), steps)
    ensures var a := After(Start(rows), steps);
      && (forall b, d | b in a.pool.batches && d in a.pool.batches && Active(a.pool.batches[b]) && Active(a.pool.batches[d]) :: b == d)
      && Justified(a.pool.log)
  {
    AppRun(Start(rows), steps);
  }
}
