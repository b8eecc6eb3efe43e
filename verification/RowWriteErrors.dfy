/**
 A row write that throws ends its worker and fails the run, while the other workers of the
 batch go on. The next run may then select a batch beside them.
 */
module RowWriteErrors {
  import opened MaintenanceRunner
  import opened RevocationOutbox
  import opened RevocationPool
  import opened RevocationSafety
  import opened Wrappers

  // ----- when the next selection can overlap an unfinished batch

  ghost predicate Selects(a: App, step: Step)
    requires CanStep(a, step)
  {
    var log := Next(a, step).pool.log;
    |a.pool.log| < |log| && log[|a.pool.log|].BatchSelected?
  }

  ghost predicate Quiet(a: App, steps: seq<Step>)
    requires LegalRun(a, steps)
    decreases |steps|
  {
    steps == [] || (!Selects(a, steps[0]) && Quiet(Next(a, steps[0]), steps[1..]))
  }

  /** After these steps, the first selection finds a batch that can still do something. */
  ghost predicate OverlapsAfter(a: App, steps: seq<Step>, step: Step) {
    && LegalRun(a, steps) && Quiet(a, steps)
    && CanStep(After(a, steps), step) && Selects(After(a, steps), step)
    && !NoneActive(After(a, steps).pool)
  }

  ghost predicate NextSelectionCanOverlap(a: App) {
    exists steps, step :: OverlapsAfter(a, steps, step)
  }

  /** Nothing is left to overlap with until the next selection. */
  ghost predicate AtRest(a: App) {
    NoneActive(a.pool) && forall k | 0 <= k < |a.runs| :: !a.runs[k].Batching?
  }

  lemma PoolStepStaysAtRest(a: App, op: Op)
    requires AtRest(a) && CanStep(a, PoolStep(op))
    ensures AtRest(Next(a, PoolStep(op)))
  {
    var b := Next(a, PoolStep(op));
    forall k | k in b.pool.batches
      ensures !Active(b.pool.batches[k])
    {
      if Active(b.pool.batches[k]) {
        ActiveBefore(a.pool, op, k);
      }
    }
  }

  lemma QuietStepStaysAtRest(a: App, step: Step)
    requires AtRest(a) && CanStep(a, step) && !Selects(a, step)
    ensures AtRest(Next(a, step))
  {
    match step
    case PoolStep(op) => PoolStepStaysAtRest(a, op);
    case Request(_, _) =>
    case ResumeCaller(_, _) =>
    case ResumeRun(_, _) =>
    case _ =>
  }

  lemma {:induction false} QuietRunStaysAtRest(a: App, steps: seq<Step>)
    requires AtRest(a) && LegalRun(a, steps) && Quiet(a, steps)
    ensures AtRest(After(a, steps))
    decreases |steps|
  {
    if steps != [] {
      QuietStepStaysAtRest(a, steps[0]);
      QuietRunStaysAtRest(Next(a, steps[0]), steps[1..]);
    }
  }

  /** Stopped, and no run is at work: nothing will be selected any more. */
  ghost predicate Halted(a: App) {
    a.stopped && forall k | 0 <= k < |a.runs| :: !a.runs[k].Batching? && !a.runs[k].Resuming?
  }

  lemma HaltedStep(a: App, step: Step)
    requires Halted(a) && CanStep(a, step)
    ensures Halted(Next(a, step)) && !Selects(a, step)
  {
  }

  lemma {:induction false} HaltedRun(a: App, steps: seq<Step>)
    requires Halted(a) && LegalRun(a, steps)
    ensures Halted(After(a, steps))
    decreases |steps|
  {
    if steps != [] {
      HaltedStep(a, steps[0]);
      HaltedRun(Next(a, steps[0]), steps[1..]);
    }
  }

  /** Some time is before every row's next attempt. */
  lemma {:induction false} EarlyTime(rows: Rows) returns (now: int)
    ensures forall name | name in rows :: now < rows[name].nextAttemptAt
    decreases |rows|
  {
    if rows == map[] {
      now := 0;
    } else {
      var name :| name in rows;
      var rest := rows - {name};
      assert rest.Keys < rows.Keys && |rest| == |rest.Keys| && |rows| == |rows.Keys|;
      assert |rest.Keys| < |rows.Keys| by {
        assert rows.Keys == rest.Keys + {name};
      }
      var early := EarlyTime(rest);
      now := if early < rows[name].nextAttemptAt then early else rows[name].nextAttemptAt - 1;
      assert forall n | n in rows :: n == name || (n in rest && rest[n] == rows[n]);
    }
  }

  lemma {:induction false} NewNumber(s: set<nat>) returns (n: nat)
    ensures forall m | m in s :: m < n
    decreases s
  {
    if s == {} {
      n := 0;
    } else {
      var m :| m in s;
      var rest := NewNumber(s - {m});
      n := if rest > m then rest else m + 1;
      assert forall x | x in s :: x == m || x in s - {m};
    }
  }

  /** The failed run settles, and a new request begins a run that selects. */
  lemma RequestSelectsAgain(a: App, r: nat)
    requires RunnerInv(a) && Owned(a) && !a.stopped && r < |a.runs| && a.runs[r].Exited? && !NoneActive(a.pool)
    ensures NextSelectionCanOverlap(a)
  {
    var now := EarlyTime(a.pool.rows);
    var c := NewNumber(a.callers.Keys);
    assert c !in a.callers.Keys;
    var b := Next(a, Finally(r));
    var begin := Selecting([], now);
    assert CanBegin(b.pool, begin);
    var step := Request(c, begin);
    assert CanStep(b, step);
    var log := Next(b, step).pool.log;
    assert log == b.pool.log + [BatchSelected(|b.pool.log|)];
    StepsCons(a, Finally(r), []);
    assert [Finally(r)] + [] == [Finally(r)] && [Finally(r)][1..] == [];
    assert Quiet(a, [Finally(r)]);
    assert OverlapsAfter(a, [Finally(r)], step);
  }

  /**
     In every reachable state: after a row write that throws, the next selection can overlap an unfinished
     batch if and only if another worker of the batch is unfinished, unless the application has stopped.
   */
  lemma ThrowOverlapsIff(rows: Rows, steps: seq<Step>, r: nat, w: nat)
    requires LegalRun(Start(rows), steps) && NobodyLeft(Start(rows), steps)
    requires CanStep(After(Start(rows), steps), RowWriteThrows(r, w))
    ensures var a := After(Start(rows), steps);
      NextSelectionCanOverlap(Next(a, RowWriteThrows(r, w))) <==> !a.stopped && OthersUnfinished(a.pool.batches[a.runs[r].batch], w)
  {
    AppRun(Start(rows), steps);
    var a := After(Start(rows), steps);
    ThrowOverlaps(a, r, w);
  }

  lemma HaltedNeverOverlaps(a: App)
    requires Halted(a)
    ensures !NextSelectionCanOverlap(a)
  {
    forall steps, step | LegalRun(a, steps) && CanStep(After(a, steps), step) ensures !OverlapsAfter(a, steps, step) {
      HaltedRun(a, steps);
      HaltedStep(After(a, steps), step);
    }
  }

  lemma RestNeverOverlaps(a: App)
    requires AtRest(a)
    ensures !NextSelectionCanOverlap(a)
  {
    forall steps, step | LegalRun(a, steps) && Quiet(a, steps) ensures !OverlapsAfter(a, steps, step) {
      QuietRunStaysAtRest(a, steps);
    }
  }

  /** After the throw every run has exited. */
  lemma RunsAfterThrow(a: App, r: nat, w: nat)
    requires RunnerInv(a) && CanStep(a, RowWriteThrows(r, w))
    ensures var b := Next(a, RowWriteThrows(r, w));
      b.runs[r].Exited? && forall k | 0 <= k < |b.runs| :: !b.runs[k].Batching? && !b.runs[k].Resuming?
  {
    assert Live(a, r);
    forall k: nat | k < |a.runs| && k != r ensures a.runs[k].Settled? {
      assert !Live(a, k);
    }
  }

  lemma ThrowOverlaps(a: App, r: nat, w: nat)
    requires AppInv(a) && CanStep(a, RowWriteThrows(r, w))
    ensures NextSelectionCanOverlap(Next(a, RowWriteThrows(r, w))) <==> !a.stopped && OthersUnfinished(a.pool.batches[a.runs[r].batch], w)
  {
    var step := RowWriteThrows(r, w);
    var b := Next(a, step);
    RunsAfterThrow(a, r, w);
    if a.stopped {
      HaltedNeverOverlaps(b);
    } else if OthersUnfinished(a.pool.batches[a.runs[r].batch], w) {
      StepKeepsRunner(a, step);
      StepKeepsOwned(a, step);
      ActiveAfterThrow(a.pool, a.runs[r].batch, w);
      RequestSelectsAgain(b, r);
    } else {
      ThrowIsSerial(a, r, w);
      RestNeverOverlaps(b);
    }
  }

  // ----- a run that loses a revocation

  /** Enqueues and worker steps of the pool, as steps of the application. */
  function PoolSteps(ops: seq<Op>): seq<Step> {
    seq(|ops|, i requires 0 <= i < |ops| => PoolStep(ops[i]))
  }

  lemma {:induction false} StraightStepsRun(a: App, ops: seq<Op>)
    requires Legal(a.pool, ops) && Straight(ops)
    ensures LegalRun(a, PoolSteps(ops)) && After(a, PoolSteps(ops)) == a.(pool := Exec(a.pool, ops))
    decreases |ops|
  {
    if ops != [] {
      assert ops[0] in ops && forall op | op in ops[1..] :: op in ops;
      var b := Next(a, PoolStep(ops[0]));
      StraightStepsRun(b, ops[1..]);
      StepsCons(a, PoolStep(ops[0]), PoolSteps(ops[1..]));
      assert PoolSteps(ops) == [PoolStep(ops[0])] + PoolSteps(ops[1..]);
    } else {
      assert PoolSteps(ops) == [];
    }
  }

  lemma StepsCons(a: App, step: Step, rest: seq<Step>)
    requires CanStep(a, step) && LegalRun(Next(a, step), rest)
    ensures LegalRun(a, [step] + rest) && After(a, [step] + rest) == After(Next(a, step), rest)
  {
    assert ([step] + rest)[1..] == rest;
  }

  lemma {:induction false} StepsAppend(a: App, first: seq<Step>, second: seq<Step>)
    requires LegalRun(a, first) && LegalRun(After(a, first), second)
    ensures LegalRun(a, first + second) && After(a, first + second) == After(After(a, first), second)
    decreases |first|
  {
    if first == [] {
      assert first + second == second;
    } else {
      StepsAppend(Next(a, first[0]), first[1..], second);
      StepsCons(a, first[0], first[1..] + second);
      assert [first[0]] + (first[1..] + second) == first + second;
    }
  }

  /** Two rows in flight: one worker's write throws while the other's call is still out. */
  function UntilTheThrow(a: RoomName, b: RoomName): seq<Step> {
    var rows := [Selected(a, 1, 0), Selected(b, 1, 0)];
    [PoolStep(Enqueue(a, 0)), PoolStep(Enqueue(b, 0)), Request(0, Selecting(rows, 0)),
     PoolStep(StartRpc(2, 0)), PoolStep(StartRpc(2, 1)), PoolStep(AnswerRpc(2, 0, Deleted)), RowWriteThrows(0, 0)]
  }

  function AfterTheThrow(a: RoomName, b: RoomName): App {
    var row := Row(1, 0, 0, 0, false);
    App(Pool(map[a := row, b := row],
             map[2 := Batch([Selected(a, 1, 0), Selected(b, 1, 0)], 2, 2, [Ended(0), Calling(1, 4)], [])],
             [Enqueued(a), Enqueued(b), BatchSelected(2), RpcStarted(2, 0, a), RpcStarted(2, 1, b),
              RpcAnswered(2, 0, a, Deleted), RowWriteFailed(2, 0, a)]),
        false, 1, 0, 0, Some(0), [Exited(true)], map[0 := Caller(1, 2, 1, Waiting(0))])
  }

  /** The next run selects both rows again and acknowledges the one whose old call is still out. */
  function AfterTheSecondRun(a: RoomName, b: RoomName): seq<Step> {
    var rows := [Selected(a, 1, 0), Selected(b, 1, 0)];
    [Finally(0), Request(1, Selecting(rows, 0)), PoolStep(StartRpc(7, 0)), PoolStep(StartRpc(7, 1)),
     PoolStep(AnswerRpc(7, 1, Deleted)), PoolStep(SettleRow(7, 1, 0))]
  }

  lemma FirstStepsRun(a: RoomName, b: RoomName)
    requires a != b
    ensures LegalRun(Start(map[]), UntilTheThrow(a, b)[..3])
    ensures var s := After(Start(map[]), UntilTheThrow(a, b)[..3]);
      && s.pool == Pool(map[a := Row(1, 0, 0, 0, false), b := Row(1, 0, 0, 0, false)],
                        map[2 := Batch([Selected(a, 1, 0), Selected(b, 1, 0)], 2, 0, [Idle, Idle], [])],
                        [Enqueued(a), Enqueued(b), BatchSelected(2)])
      && s == App(s.pool, false, 1, 0, 0, Some(0), [Batching(1, 2, 0, 2)], map[0 := Caller(1, 2, 1, Waiting(0))])
  {
    var rows := [Selected(a, 1, 0), Selected(b, 1, 0)];
    var steps := UntilTheThrow(a, b)[..3];
    var s1 := Next(Start(map[]), PoolStep(Enqueue(a, 0)));
    var s2 := Next(s1, PoolStep(Enqueue(b, 0)));
    assert s2.pool.rows == map[a := Row(1, 0, 0, 0, false), b := Row(1, 0, 0, 0, false)];
    assert s2.pool.log == [Enqueued(a), Enqueued(b)];
    assert rows[0].name == a && rows[1].name == b;
    var request := Request(0, Selecting(rows, 0));
    assert CanStep(s2, request);
    assert NewBatch(rows, 2).workers == [Idle, Idle];
    var s3 := Next(s2, request);
    assert s3.pool.log == [Enqueued(a), Enqueued(b), BatchSelected(2)];
    StepsCons(s2, request, []);
    StepsCons(s1, PoolStep(Enqueue(b, 0)), [request] + []);
    StepsCons(Start(map[]), PoolStep(Enqueue(a, 0)), [PoolStep(Enqueue(b, 0))] + ([request] + []));
    assert steps == [PoolStep(Enqueue(a, 0))] + ([PoolStep(Enqueue(b, 0))] + ([request] + []));
  }

  lemma CallsGoOut(a: RoomName, b: RoomName, p: Pool)
    requires a != b && p.batches == map[2 := Batch([Selected(a, 1, 0), Selected(b, 1, 0)], 2, 0, [Idle, Idle], [])]
    requires p.log == [Enqueued(a), Enqueued(b), BatchSelected(2)]
    ensures var ops := [StartRpc(2, 0), StartRpc(2, 1), AnswerRpc(2, 0, Deleted)];
      && Legal(p, ops) && Exec(p, ops).rows == p.rows
      && Exec(p, ops).batches
         == map[2 := Batch([Selected(a, 1, 0), Selected(b, 1, 0)], 2, 2, [Answered(0, 3, 5, Deleted), Calling(1, 4)], [])]
      && Exec(p, ops).log == p.log + [RpcStarted(2, 0, a), RpcStarted(2, 1, b), RpcAnswered(2, 0, a, Deleted)]
  {
    var p1 := Apply(p, StartRpc(2, 0));
    var p2 := Apply(p1, StartRpc(2, 1));
    assert p2.batches[2].workers == [Calling(0, 3), Calling(1, 4)];
    var p3 := Apply(p2, AnswerRpc(2, 0, Deleted));
    assert p3.batches[2].workers == [Answered(0, 3, 5, Deleted), Calling(1, 4)];
    ExecCons(p2, AnswerRpc(2, 0, Deleted), []);
    var t2 := [AnswerRpc(2, 0, Deleted)] + [];
    ExecCons(p1, StartRpc(2, 1), t2);
    ExecCons(p, StartRpc(2, 0), [StartRpc(2, 1)] + t2);
    assert [StartRpc(2, 0), StartRpc(2, 1), AnswerRpc(2, 0, Deleted)] == [StartRpc(2, 0)] + ([StartRpc(2, 1)] + t2);
  }

  lemma LaterStepsRun(a: RoomName, b: RoomName, s: App)
    requires a != b && s.pool.rows == map[a := Row(1, 0, 0, 0, false), b := Row(1, 0, 0, 0, false)]
    requires s.pool.batches == map[2 := Batch([Selected(a, 1, 0), Selected(b, 1, 0)], 2, 0, [Idle, Idle], [])]
    requires s.pool.log == [Enqueued(a), Enqueued(b), BatchSelected(2)]
    requires s == App(s.pool, false, 1, 0, 0, Some(0), [Batching(1, 2, 0, 2)], map[0 := Caller(1, 2, 1, Waiting(0))])
    ensures LegalRun(s, UntilTheThrow(a, b)[3..]) && After(s, UntilTheThrow(a, b)[3..]) == AfterTheThrow(a, b)
  {
    var ops := [StartRpc(2, 0), StartRpc(2, 1), AnswerRpc(2, 0, Deleted)];
    CallsGoOut(a, b, s.pool);
    StraightStepsRun(s, ops);
    var t := After(s, PoolSteps(ops));
    TheWriteThrows(a, b, t);
    StepsCons(t, RowWriteThrows(0, 0), []);
    StepsAppend(s, PoolSteps(ops), [RowWriteThrows(0, 0)] + []);
    assert UntilTheThrow(a, b)[3..] == PoolSteps(ops) + ([RowWriteThrows(0, 0)] + []);
  }

  lemma TheWriteThrows(a: RoomName, b: RoomName, t: App)
    requires t.pool.rows == AfterTheThrow(a, b).pool.rows
    requires t.pool.batches == map[2 := Batch([Selected(a, 1, 0), Selected(b, 1, 0)], 2, 2, [Answered(0, 3, 5, Deleted), Calling(1, 4)], [])]
    requires t.pool.log == AfterTheThrow(a, b).pool.log[..6]
    requires t == App(t.pool, false, 1, 0, 0, Some(0), [Batching(1, 2, 0, 2)], map[0 := Caller(1, 2, 1, Waiting(0))])
    ensures CanStep(t, RowWriteThrows(0, 0)) && Next(t, RowWriteThrows(0, 0)) == AfterTheThrow(a, b)
  {
    var next := Next(t, RowWriteThrows(0, 0));
    assert next.pool.batches[2].workers == [Ended(0), Calling(1, 4)];
    assert next.pool.log == AfterTheThrow(a, b).pool.log;
    assert next.pool.batches == AfterTheThrow(a, b).pool.batches;
  }

  lemma TheThrowHappens(a: RoomName, b: RoomName)
    requires a != b
    ensures LegalRun(Start(map[]), UntilTheThrow(a, b)) && After(Start(map[]), UntilTheThrow(a, b)) == AfterTheThrow(a, b)
  {
    var steps := UntilTheThrow(a, b);
    FirstStepsRun(a, b);
    LaterStepsRun(a, b, After(Start(map[]), steps[..3]));
    StepsAppend(Start(map[]), steps[..3], steps[3..]);
    assert steps == steps[..3] + steps[3..];
  }

  /** The pool once both runs' batches are in flight. */
  function TwoBatches(a: RoomName, b: RoomName): Pool {
    var rows := [Selected(a, 1, 0), Selected(b, 1, 0)];
    var pool := AfterTheThrow(a, b).pool;
    Pool(pool.rows, pool.batches[7 := Batch(rows, 7, 0, [Idle, Idle], [])], pool.log + [BatchSelected(7)])
  }

  lemma SecondRunBegins(a: RoomName, b: RoomName)
    requires a != b
    ensures var s := AfterTheThrow(a, b); var steps := AfterTheSecondRun(a, b)[..2];
      LegalRun(s, steps) && After(s, steps).pool == TwoBatches(a, b)
  {
    var rows := [Selected(a, 1, 0), Selected(b, 1, 0)];
    var steps := AfterTheSecondRun(a, b)[..2];
    var s1 := Next(AfterTheThrow(a, b), Finally(0));
    assert rows[0].name == a && rows[1].name == b;
    var request := Request(1, Selecting(rows, 0));
    assert |s1.pool.log| == 7 && CanStep(s1, request);
    assert NewBatch(rows, 7).workers == [Idle, Idle];
    StepsCons(s1, request, []);
    StepsCons(AfterTheThrow(a, b), Finally(0), [request] + []);
    assert steps == [Finally(0)] + ([request] + []);
  }

  /** Acknowledged by the second batch, the name is no longer in the outbox while the first still carries it. */
  lemma SecondBatchAcknowledges(a: RoomName, b: RoomName)
    requires a != b
    ensures var ops := [StartRpc(7, 0), StartRpc(7, 1), AnswerRpc(7, 1, Deleted), SettleRow(7, 1, 0)]; var p := TwoBatches(a, b);
      Legal(p, ops) && b !in Exec(p, ops).rows && 2 in Exec(p, ops).batches
      && Exec(p, ops).batches[2] == p.batches[2]
  {
    var p := TwoBatches(a, b);
    var p1 := Apply(p, StartRpc(7, 0));
    var p2 := Apply(p1, StartRpc(7, 1));
    assert p2.batches[7].workers == [Calling(0, 8), Calling(1, 9)];
    var p3 := Apply(p2, AnswerRpc(7, 1, Deleted));
    ExecCons(p3, SettleRow(7, 1, 0), []);
    var t3 := [SettleRow(7, 1, 0)] + [];
    ExecCons(p2, AnswerRpc(7, 1, Deleted), t3);
    var t2 := [AnswerRpc(7, 1, Deleted)] + t3;
    ExecCons(p1, StartRpc(7, 1), t2);
    ExecCons(p, StartRpc(7, 0), [StartRpc(7, 1)] + t2);
    assert [StartRpc(7, 0), StartRpc(7, 1), AnswerRpc(7, 1, Deleted), SettleRow(7, 1, 0)] == [StartRpc(7, 0)] + ([StartRpc(7, 1)] + t2);
  }

  lemma TwoBatchesInFlight(a: RoomName, b: RoomName)
    requires a != b
    ensures var steps := UntilTheThrow(a, b) + AfterTheSecondRun(a, b);
      && LegalRun(Start(map[]), steps)
      && var p := After(Start(map[]), steps).pool;
         b !in p.rows && 2 in p.batches && p.batches[2] == TwoBatches(a, b).batches[2]
  {
    var ops := [StartRpc(7, 0), StartRpc(7, 1), AnswerRpc(7, 1, Deleted), SettleRow(7, 1, 0)];
    var first, second := UntilTheThrow(a, b), AfterTheSecondRun(a, b)[..2];
    TheThrowHappens(a, b);
    SecondRunBegins(a, b);
    SecondBatchAcknowledges(a, b);
    ThreeParts(Start(map[]), first, second, ops, TwoBatches(a, b));
    assert AfterTheSecondRun(a, b) == second + PoolSteps(ops);
  }

  lemma ThreeParts(s: App, first: seq<Step>, second: seq<Step>, ops: seq<Op>, p: Pool)
    requires LegalRun(s, first) && LegalRun(After(s, first), second)
    requires After(After(s, first), second).pool == p && Legal(p, ops) && Straight(ops)
    ensures LegalRun(s, first + (second + PoolSteps(ops))) && After(s, first + (second + PoolSteps(ops))).pool == Exec(p, ops)
  {
    var t := After(s, first);
    StraightStepsRun(After(t, second), ops);
    StepsAppend(t, second, PoolSteps(ops));
    StepsAppend(s, first, second + PoolSteps(ops));
  }

  /** The first batch's call for b is still out. */
  lemma OldCallIsOut(t: App, a: RoomName, b: RoomName)
    requires Owned(t) && b !in t.pool.rows && 2 in t.pool.batches && t.pool.batches[2] == TwoBatches(a, b).batches[2]
    ensures CanLoseStraight(Apply(t.pool, Enqueue(b, 1)))
  {
    assert CarriedBy(t.pool.batches[2], 1, b);
    HarmfulLoses(t.pool, b, 1);
  }

  /**
     A run of the application that loses a revocation: the write for `a` throws while the call for `b` is
     out, the next run acknowledges `b`, `b` is enqueued again, and the old call's answer takes the new row.
   */
  lemma ThrowLosesARevocation(a: RoomName, b: RoomName) returns (steps: seq<Step>)
    requires a != b
    ensures UntilTheThrow(a, b) + AfterTheSecondRun(a, b) <= steps
    ensures LegalRun(Start(map[]), steps) && !Justified(After(Start(map[]), steps).pool.log)
  {
    var prefix := UntilTheThrow(a, b) + AfterTheSecondRun(a, b);
    TwoBatchesInFlight(a, b);
    OwnedRun(Start(map[]), prefix);
    OldCallIsOut(After(Start(map[]), prefix), a, b);
    steps := LoseFrom(After(Start(map[]), prefix), prefix, b);
  }

  lemma LoseFrom(t: App, prefix: seq<Step>, name: RoomName) returns (steps: seq<Step>)
    requires LegalRun(Start(map[]), prefix) && t == After(Start(map[]), prefix)
    requires CanLoseStraight(Apply(t.pool, Enqueue(name, 1)))
    ensures prefix <= steps && LegalRun(Start(map[]), steps) && !Justified(After(Start(map[]), steps).pool.log)
  {
    var q := Apply(t.pool, Enqueue(name, 1));
    var more :| LosesBy(q, more) && Straight(more);
    ExecCons(t.pool, Enqueue(name, 1), more);
    var ops := [Enqueue(name, 1)] + more;
    StraightStepsRun(t, ops);
    StepsAppend(Start(map[]), prefix, PoolSteps(ops));
    steps := prefix + PoolSteps(ops);
  }
}
