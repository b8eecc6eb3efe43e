/**
 The opaque host answers requests on orders of the page, so an interrupt may travel while a request or
 a result does. Whether it can end the session is decided by what the page shows when it is sent.
 */
module OpaqueHost {
  import opened StdinHandshake

  /** Every interrupt of the run is sent while the page shows a request. */
  predicate Polite(s: State, steps: seq<Step>)
    requires Legal(s, steps)
    decreases |steps|
  {
    steps == [] || ((steps[0].Interrupt? ==> s.pageWaiting) && Polite(Next(s, steps[0]), steps[1..]))
  }

  // ----- polite sessions survive

  function Shown(s: State): nat {
    s.toPage + One(s.pageWaiting) + One(s.orders != [] && !s.orders[0].CommandOrder?)
  }

  /** Where a request is: about to be sent, on its way to the host, to the page, shown, answered, or being served. */
  function Tokens(s: State): nat {
    One(s.worker.Cleared? || s.worker.Published?) + s.requests + Shown(s) + One(Writing(s.host))
  }

  /** A request is in exactly one place, from its announcement to the answer, and nothing is queued beside its answer or a command. */
  ghost predicate OneToken(s: State) {
    && OneCommand(s) && |s.orders| <= 1
    && Tokens(s) == One(s.worker.Cleared? || s.worker.Published? || (s.worker.Blocked? && s.control.Waiting?))
    && (s.worker.Published? ==> s.control.Waiting?)
    && (s.ready <==> Shown(s) == 1)
  }

  ghost predicate Quiet(s: State) {
    s.isOpaque && if s.failed then s.command.issued > MAX_COMMANDS else OneToken(s)
  }

  lemma PoliteOrderKeeps(s: State)
    requires Inv(s) && Quiet(s) && Enabled(s, TakeOrder)
    ensures Quiet(Next(s, TakeOrder))
  {
    if s.orders[0].InputOrder? {
      InputFits(s, s.orders[0].line);
    }
    if !Next(s, TakeOrder).failed {
      StepKeepsOneCommand(s, TakeOrder);
    }
  }

  lemma PoliteStepKeeps(s: State, step: Step)
    requires Inv(s) && Quiet(s) && Enabled(s, step) && (step.Interrupt? ==> s.pageWaiting)
    ensures Quiet(Next(s, step))
  {
    if step.TakeOrder? {
      PoliteOrderKeeps(s);
    } else if !Next(s, step).failed {
      StepKeepsOneCommand(s, step);
    }
  }

  lemma {:induction false} PoliteRunKeeps(s: State, steps: seq<Step>)
    requires Inv(s) && Quiet(s) && Legal(s, steps) && Polite(s, steps)
    ensures Quiet(Exec(s, steps))
    decreases |steps|
  {
    if steps != [] {
      StepKeepsInv(s, steps[0]);
      PoliteStepKeeps(s, steps[0]);
      PoliteRunKeeps(Next(s, steps[0]), steps[1..]);
    }
  }

  /** A waiting worker has been heard, and the host is ready only on behalf of a request the page gets or got. */
  ghost predicate Heard(s: State) {
    !s.failed ==>
      && OneCommand(s)
      && (s.worker.Blocked? && s.control.Waiting? && !Writing(s.host) ==> s.requests > 0 || s.ready)
      && (s.ready ==> s.command.hostActive && (s.toPage > 0 || s.pageWaiting || s.orders != []))
  }

  lemma StartsQuiet(s: State)
    requires s == Initial(s.isOpaque) && s.isOpaque
    ensures Inv(s) && Quiet(s) && Heard(s)
  {
    InitialHolds(s.isOpaque);
  }

  /** If every interrupt is sent while the page shows a request, only too many commands end the session. */
  lemma PoliteSessionNeverFails(steps: seq<Step>)
    requires Legal(Initial(true), steps) && Polite(Initial(true), steps)
    ensures Exec(Initial(true), steps).failed ==> Exec(Initial(true), steps).command.issued > MAX_COMMANDS
  {
    StartsQuiet(Initial(true));
    PoliteRunKeeps(Initial(true), steps);
  }

  lemma LimitFails(s: State)
    requires Quiet(s) && Enabled(s, StartCommand) && s.command.issued == MAX_COMMANDS
    ensures var t := Next(s, StartCommand); Enabled(t, TakeOrder) && Next(t, TakeOrder).failed
  {
    assert s.orders == [];
  }

  /** And they do: the host ends it at the first command beyond the limit. */
  lemma CommandBeyondLimitFails(steps: seq<Step>, s: State)
    requires Legal(Initial(true), steps) && Polite(Initial(true), steps) && s == Exec(Initial(true), steps)
    requires Enabled(s, StartCommand) && s.command.issued == MAX_COMMANDS
    ensures var t := Next(s, StartCommand); Enabled(t, TakeOrder) && Next(t, TakeOrder).failed
  {
    StartsQuiet(Initial(true));
    PoliteRunKeeps(Initial(true), steps);
    LimitFails(s);
  }

  // ----- failing continuations

  /** Some further run, with no other early interrupt and not too many commands, ends the session. */
  ghost predicate CanFail(s: State) {
    exists steps :: FailsBy(s, steps)
  }

  ghost predicate FailsBy(s: State, steps: seq<Step>) {
    Legal(s, steps) && Polite(s, steps) && Exec(s, steps).failed && Exec(s, steps).command.issued <= MAX_COMMANDS
  }

  lemma FailsNow(s: State)
    requires s.failed && s.command.issued <= MAX_COMMANDS
    ensures CanFail(s)
  {
    var steps: seq<Step> := [];
    assert FailsBy(s, steps);
  }

  lemma FailsAfter(s: State, step: Step)
    requires Enabled(s, step) && !step.Interrupt? && CanFail(Next(s, step))
    ensures CanFail(s)
  {
    var steps :| FailsBy(Next(s, step), steps);
    var all := [step] + steps;
    assert all[1..] == steps;
    assert FailsBy(s, all);
  }

  ghost predicate Live(s: State) {
    && Inv(s) && OneCommand(s) && Heard(s) && s.isOpaque && !s.failed && !s.closed
    && s.command.issued <= MAX_COMMANDS && s.command.pageActive
  }

  lemma OrderKeepsHeard(s: State)
    requires Inv(s) && Heard(s) && s.isOpaque && Enabled(s, TakeOrder)
    ensures Heard(Next(s, TakeOrder))
  {
    if !Next(s, TakeOrder).failed {
      StepKeepsOneCommand(s, TakeOrder);
    }
  }

  lemma StepKeepsHeard(s: State, step: Step)
    requires Inv(s) && Heard(s) && s.isOpaque && Enabled(s, step)
    ensures Heard(Next(s, step)) && Next(s, step).isOpaque
  {
    if step.TakeOrder? {
      OrderKeepsHeard(s);
    } else if !Next(s, step).failed {
      StepKeepsOneCommand(s, step);
    }
  }

  lemma {:induction false} RunKeepsHeard(s: State, steps: seq<Step>)
    requires Inv(s) && Heard(s) && s.isOpaque && Legal(s, steps)
    ensures Heard(Exec(s, steps)) && Exec(s, steps).isOpaque
    decreases |steps|
  {
    if steps != [] {
      StepKeepsInv(s, steps[0]);
      StepKeepsHeard(s, steps[0]);
      RunKeepsHeard(Next(s, steps[0]), steps[1..]);
    }
  }

  lemma StaysLive(s: State, step: Step)
    requires Live(s) && Enabled(s, step) && !Next(s, step).failed
    requires !step.Close? && !step.StartCommand? && !step.PageTakesResult?
    ensures Live(Next(s, step))
  {
    StepKeepsInv(s, step);
    StepKeepsHeard(s, step);
    KeepsActive(s, step);
  }

  lemma KeepsActive(s: State, step: Step)
    requires Enabled(s, step) && s.isOpaque && !step.Close? && !step.StartCommand? && !step.PageTakesResult?
    ensures var c := Next(s, step).command; c.issued == s.command.issued && c.pageActive == s.command.pageActive
    ensures Next(s, step).closed == s.closed
  {
    if !MovesCommand(step) {
      LeavesCommand(s, step);
      StaysOpen(s, step);
    }
  }

  lemma StaysOpen(s: State, step: Step)
    requires Enabled(s, step) && !step.Close? && !MovesCommand(step)
    ensures Next(s, step).closed == s.closed
  {
  }

  function WriterNext(h: HostPc): Step
    requires Writing(h)
  {
    if h.Checked? then ZeroData else if h.Zeroed? then StoreData
    else if h.Written? || h.EofChecked? then StoreLength else StoreState
  }

  function WriterLeft(h: HostPc): nat {
    if h.HostIdle? then 0 else if h.SizedUp? || h.EofSized? then 1
    else if h.Written? || h.EofChecked? then 2 else if h.Zeroed? then 3 else 4
  }

  lemma WriterGoesOn(s: State) returns (t: State)
    requires Live(s) && Writing(s.host)
    ensures Enabled(s, WriterNext(s.host)) && t == Next(s, WriterNext(s.host)) && Live(t)
    ensures WriterLeft(t.host) < WriterLeft(s.host) && t.control.Waiting? == Writing(t.host)
    ensures t == s.(host := t.host, data := t.data, length := t.length, control := t.control)
  {
    t := Next(s, WriterNext(s.host));
    StaysLive(s, WriterNext(s.host));
  }

  /** The request was answered before it arrived. */
  ghost predicate Overtaken(s: State) {
    && Live(s) && s.orders == [] && !s.pageWaiting && !s.ready
    && (s.control.Waiting? ==> Writing(s.host))
    && (s.requests > 0 || s.toPage > 0 || s.worker.Published?)
  }

  lemma RefusedByHost(s: State)
    requires Overtaken(s) && s.host.HostIdle? && s.requests > 0
    ensures CanFail(s)
  {
    FailsNow(Next(s, TakeRequest));
    FailsAfter(s, TakeRequest);
  }

  lemma RefusedOrder(s: State)
    requires s.isOpaque && !s.failed && !s.closed && s.host.HostIdle? && s.orders == [] && !s.ready && s.pageWaiting
    requires s.command.pageActive && s.command.issued <= MAX_COMMANDS
    ensures CanFail(s)
  {
    var t := Next(s, SendEof);
    FailsNow(Next(t, TakeOrder));
    FailsAfter(t, TakeOrder);
    FailsAfter(s, SendEof);
  }

  lemma RefusedOnPage(s: State)
    requires Overtaken(s) && s.host.HostIdle? && s.toPage > 0
    ensures CanFail(s)
  {
    var t := Next(s, PageTakesRequest);
    if t.failed {
      FailsNow(t);
    } else {
      RefusedOrder(t);
    }
    FailsAfter(s, PageTakesRequest);
  }

  lemma {:induction false} OvertakenFails(s: State)
    requires Overtaken(s)
    ensures CanFail(s)
    decreases WriterLeft(s.host)
  {
    if Writing(s.host) {
      var t := WriterGoesOn(s);
      OvertakenFails(t);
      FailsAfter(s, WriterNext(s.host));
    } else if s.requests > 0 {
      RefusedByHost(s);
    } else if s.toPage > 0 {
      RefusedOnPage(s);
    } else {
      StaysLive(s, SendRequest);
      RefusedByHost(Next(s, SendRequest));
      FailsAfter(s, SendRequest);
    }
  }

  /** An interrupt is the last order, and no request is shown. */
  ghost predicate Overtaking(s: State) {
    && Live(s) && s.orders != [] && s.orders[|s.orders| - 1].InterruptOrder? && !s.pageWaiting
    && (s.ready ==> s.toPage > 0 || |s.orders| > 1)
  }

  function WorkerNext(w: WorkerPc): Step
    requires !w.Resting? && !w.Rejected?
  {
    match w
    case Running => FinishCommand
    case Cleared => PublishWaiting
    case Published => SendRequest
    case Blocked => Wake
    case SawValue => LoadLength
    case Sized(_) => CopyData
    case Copied(_) => ResetLength
    case LengthReset(_) => ReturnLine
    case SawEof => ReturnEof
  }

  function WorkerLeft(w: WorkerPc): nat {
    match w
    case Blocked => 9
    case SawValue => 8
    case Sized(_) => 7
    case Copied(_) => 6
    case LengthReset(_) => 5
    case SawEof => 5
    case Running => 4
    case Cleared => 2
    case Published => 1
    case Resting => 0
    case Rejected => 0
  }

  /** With nothing else to do, the worker comes to its next request or to the end of the command. */
  lemma WorkerGoesOn(s: State)
    requires Overtaking(s) && s.host.HostIdle? && |s.orders| == 1
    requires s.requests == 0 && s.toPage == 0 && !s.worker.Published? && !s.worker.Resting?
    ensures Enabled(s, WorkerNext(s.worker)) && Overtaking(Next(s, WorkerNext(s.worker)))
    ensures WorkerLeft(Next(s, WorkerNext(s.worker)).worker) < WorkerLeft(s.worker)
    ensures var t := Next(s, WorkerNext(s.worker)); t.orders == s.orders && t.host == s.host && t.command.starting == s.command.starting
  {
    if s.worker.SawValue? {
      LengthFits(s);
    } else if s.worker.Sized? {
      TextIsValid(s);
    }
    StaysLive(s, WorkerNext(s.worker));
  }

  lemma CommandBegins(s: State)
    requires Overtaking(s) && s.command.starting && s.worker.Resting?
    ensures Enabled(s, BeginCommand) && Overtaking(Next(s, BeginCommand))
    ensures var t := Next(s, BeginCommand); t.orders == s.orders && t.host == s.host && !t.command.starting
  {
    StaysLive(s, BeginCommand);
  }

  lemma OrderGoesOn(s: State)
    requires Overtaking(s) && s.host.HostIdle? && |s.orders| > 1 && !Next(s, TakeOrder).failed
    ensures Overtaking(Next(s, TakeOrder)) && |Next(s, TakeOrder).orders| < |s.orders|
  {
    StaysLive(s, TakeOrder);
  }

  lemma InterruptComes(s: State)
    requires Overtaking(s) && s.host.HostIdle? && |s.orders| == 1 && s.command.hostActive
    requires s.requests > 0 || s.toPage > 0 || s.worker.Published?
    ensures Overtaken(Next(s, TakeOrder))
  {
    StaysLive(s, TakeOrder);
  }

  /** The result has passed through the host, so no command is active there. */
  lemma InterruptRefused(s: State)
    requires s.isOpaque && !s.failed && !s.closed && s.host.HostIdle? && |s.orders| == 1 && s.orders[0].InterruptOrder?
    requires !s.command.hostActive && s.command.issued <= MAX_COMMANDS
    ensures CanFail(s)
  {
    FailsNow(Next(s, TakeOrder));
    FailsAfter(s, TakeOrder);
  }

  lemma ResultComesFirst(s: State)
    requires Overtaking(s) && s.host.HostIdle? && |s.orders| == 1 && s.requests == 0 && s.command.result
    ensures CanFail(s)
  {
    InterruptRefused(Next(s, TakeResult));
    FailsAfter(s, TakeResult);
  }

  lemma {:induction false} OvertakingFails(s: State)
    requires Overtaking(s)
    ensures CanFail(s)
    decreases |s.orders|, WriterLeft(s.host), One(s.command.starting), WorkerLeft(s.worker)
  {
    if Writing(s.host) {
      var t := WriterGoesOn(s);
      OvertakingFails(t);
      FailsAfter(s, WriterNext(s.host));
    } else if |s.orders| > 1 {
      if Next(s, TakeOrder).failed {
        KeepsActive(s, TakeOrder);
        FailsNow(Next(s, TakeOrder));
      } else {
        OrderGoesOn(s);
        OvertakingFails(Next(s, TakeOrder));
      }
      FailsAfter(s, TakeOrder);
    } else if !s.command.hostActive {
      InterruptRefused(s);
    } else if s.requests > 0 || s.toPage > 0 || s.worker.Published? {
      InterruptComes(s);
      OvertakenFails(Next(s, TakeOrder));
      FailsAfter(s, TakeOrder);
    } else if s.command.result {
      ResultComesFirst(s);
    } else if s.worker.Resting? {
      CommandBegins(s);
      OvertakingFails(Next(s, BeginCommand));
      FailsAfter(s, BeginCommand);
    } else {
      WorkerGoesOn(s);
      OvertakingFails(Next(s, WorkerNext(s.worker)));
      FailsAfter(s, WorkerNext(s.worker));
    }
  }

  lemma EarlyInterruptOvertakes(s0: State, steps: seq<Step>, s: State)
    requires Inv(s0) && Heard(s0) && s0.isOpaque && Legal(s0, steps) && s == Exec(s0, steps)
    requires Enabled(s, Interrupt) && !s.pageWaiting && s.command.issued <= MAX_COMMANDS
    ensures CanFail(Next(s, Interrupt))
  {
    RunKeepsInv(s0, steps);
    RunKeepsHeard(s0, steps);
    StaysLive(s, Interrupt);
    OvertakingFails(Next(s, Interrupt));
  }

  /**
     In every reachable state of an open session: an interrupt sent while the page shows no request can end
     the session, whatever else is queued.
   */
  lemma EarlyInterruptCanFail(steps: seq<Step>, s: State)
    requires Legal(Initial(true), steps) && s == Exec(Initial(true), steps)
    requires Enabled(s, Interrupt) && !s.pageWaiting && s.command.issued <= MAX_COMMANDS
    ensures CanFail(Next(s, Interrupt))
  {
    StartsQuiet(Initial(true));
    EarlyInterruptOvertakes(Initial(true), steps, s);
  }

  // ----- and no others

  lemma PoliteCannotFail(s: State)
    requires Inv(s) && Quiet(s)
    ensures !CanFail(s)
  {
    forall steps | Legal(s, steps) && Polite(s, steps)
      ensures !FailsBy(s, steps)
    {
      PoliteRunKeeps(s, steps);
    }
  }

  lemma StepIssues(s: State, step: Step)
    requires Enabled(s, step)
    ensures Next(s, step).command.issued >= s.command.issued
  {
    if !MovesCommand(step) {
      LeavesCommand(s, step);
    }
  }

  lemma {:induction false} IssuedGrows(s: State, steps: seq<Step>)
    requires Legal(s, steps)
    ensures Exec(s, steps).command.issued >= s.command.issued
    decreases |steps|
  {
    if steps != [] {
      StepIssues(s, steps[0]);
      IssuedGrows(Next(s, steps[0]), steps[1..]);
    }
  }

  lemma TooManyCannotFail(s: State)
    requires s.command.issued > MAX_COMMANDS
    ensures !CanFail(s)
  {
    forall steps | Legal(s, steps)
      ensures !FailsBy(s, steps)
    {
      IssuedGrows(s, steps);
    }
  }

  lemma InterruptDecides(s0: State, steps: seq<Step>, s: State)
    requires Inv(s0) && Quiet(s0) && Heard(s0) && Legal(s0, steps) && Polite(s0, steps)
    requires s == Exec(s0, steps) && Enabled(s, Interrupt)
    ensures CanFail(Next(s, Interrupt)) <==> !s.pageWaiting && s.command.issued <= MAX_COMMANDS
  {
    if s.pageWaiting {
      RunKeepsInv(s0, steps);
      PoliteRunKeeps(s0, steps);
      StepKeepsInv(s, Interrupt);
      PoliteStepKeeps(s, Interrupt);
      PoliteCannotFail(Next(s, Interrupt));
    } else if s.command.issued <= MAX_COMMANDS {
      EarlyInterruptOvertakes(s0, steps, s);
    } else {
      TooManyCannotFail(Next(s, Interrupt));
    }
  }

  /**
     The exact condition, for every interrupt after a polite run with at most the allowed number of commands:
     it can end the session if and only if the page shows no request when it is sent.
   */
  lemma InterruptCanFailIff(steps: seq<Step>, s: State)
    requires Legal(Initial(true), steps) && Polite(Initial(true), steps)
    requires s == Exec(Initial(true), steps) && Enabled(s, Interrupt)
    ensures CanFail(Next(s, Interrupt)) <==> !s.pageWaiting && s.command.issued <= MAX_COMMANDS
  {
    StartsQuiet(Initial(true));
    InterruptDecides(Initial(true), steps, s);
  }

  // ----- two failing runs

  lemma ExecOne(s: State, step: Step, steps: seq<Step>)
    requires Enabled(s, step) && Legal(Next(s, step), steps)
    ensures Legal(s, [step] + steps) && Exec(s, [step] + steps) == Exec(Next(s, step), steps)
  {
    assert ([step] + steps)[1..] == steps;
  }

  lemma ExecLast(s: State, step: Step)
    requires Enabled(s, step)
    ensures Legal(s, [step]) && Exec(s, [step]) == Next(s, step)
  {
    var none: seq<Step> := [];
    ExecOne(s, step, none);
    assert [step] + none == [step];
  }

  /** The session's first command is running, and nothing has happened in it. */
  predicate FirstCommand(s: State) {
    && s.isOpaque && !s.failed && !s.closed && s.worker.Running? && s.control.Idle? && s.host.HostIdle? && !s.ready
    && s.orders == [] && s.requests == 0 && s.workerRequests == 0 && s.accepted == []
    && s.command == Command(true, false, true, false, false, false, 1, 1)
  }

  lemma CommandStarts(s0: State, rest: seq<Step>)
    requires s0 == Initial(s0.isOpaque) && s0.isOpaque
    ensures Enabled(s0, StartCommand)
    ensures var s1 := Next(s0, StartCommand);
      && Enabled(s1, TakeOrder)
      && var s2 := Next(s1, TakeOrder);
         && Enabled(s2, BeginCommand) && FirstCommand(Next(s2, BeginCommand))
         && (Legal(Next(s2, BeginCommand), rest) ==>
               && Legal(s0, [StartCommand, TakeOrder, BeginCommand] + rest)
               && Exec(s0, [StartCommand, TakeOrder, BeginCommand] + rest) == Exec(Next(s2, BeginCommand), rest))
  {
    var s1 := Next(s0, StartCommand);
    var s2 := Next(s1, TakeOrder);
    var s3 := Next(s2, BeginCommand);
    if Legal(s3, rest) {
      ExecOne(s2, BeginCommand, rest);
      ExecOne(s1, TakeOrder, [BeginCommand] + rest);
      ExecOne(s0, StartCommand, [TakeOrder] + ([BeginCommand] + rest));
      assert [StartCommand] + ([TakeOrder] + ([BeginCommand] + rest)) == [StartCommand, TakeOrder, BeginCommand] + rest;
    }
  }

  /** The interrupt is sent between publishing the wait and sending the request, and answers that. */
  function AnsweredTooEarly(): seq<Step> {
    [RequestInput, PublishWaiting, Interrupt] + ([TakeOrder, StoreLength, StoreState] + [SendRequest, TakeRequest])
  }

  /** The interrupt is sent while the result of the command is under way. */
  function SentTooLate(): seq<Step> {
    [FinishCommand, Interrupt, TakeResult, TakeOrder]
  }

  predicate Early(s: State) {
    && s.isOpaque && !s.failed && !s.closed && s.accepted == [] && s.orders == [InterruptOrder]
    && s.worker.Published? && s.control.Waiting? && s.host.HostIdle? && s.requests == 0 && s.command.hostActive
  }

  lemma ExecThree(s: State, a: Step, b: Step, c: Step, rest: seq<Step>)
    requires Enabled(s, a) && Enabled(Next(s, a), b) && Enabled(Next(Next(s, a), b), c)
    requires Legal(Next(Next(Next(s, a), b), c), rest)
    ensures Legal(s, [a, b, c] + rest) && Exec(s, [a, b, c] + rest) == Exec(Next(Next(Next(s, a), b), c), rest)
  {
    ExecOne(Next(Next(s, a), b), c, rest);
    ExecOne(Next(s, a), b, [c] + rest);
    ExecOne(s, a, [b] + ([c] + rest));
    assert [a] + ([b] + ([c] + rest)) == [a, b, c] + rest;
  }

  lemma InterruptsEarly(s0: State)
    requires FirstCommand(s0)
    ensures Enabled(s0, RequestInput) && Enabled(Next(s0, RequestInput), PublishWaiting)
    ensures Enabled(Next(Next(s0, RequestInput), PublishWaiting), Interrupt)
    ensures Early(Next(Next(Next(s0, RequestInput), PublishWaiting), Interrupt))
  {
  }

  lemma RequestComesLate(s: State)
    requires s.isOpaque && !s.failed && !s.closed && s.worker.Published? && s.control.Eof? && s.host.HostIdle? && s.requests == 0
    ensures Legal(s, [SendRequest, TakeRequest]) && Exec(s, [SendRequest, TakeRequest]).failed
    ensures Exec(s, [SendRequest, TakeRequest]).accepted == s.accepted
  {
    var t := Next(s, SendRequest);
    ExecLast(t, TakeRequest);
    ExecOne(s, SendRequest, [TakeRequest]);
    assert [SendRequest] + [TakeRequest] == [SendRequest, TakeRequest];
  }

  lemma EofComesFirst(s: State)
    requires Early(s)
    ensures var steps := [TakeOrder, StoreLength, StoreState] + [SendRequest, TakeRequest];
      Legal(s, steps) && Exec(s, steps).failed && Exec(s, steps).accepted == []
  {
    RequestComesLate(Next(Next(Next(s, TakeOrder), StoreLength), StoreState));
    ExecThree(s, TakeOrder, StoreLength, StoreState, [SendRequest, TakeRequest]);
  }

  lemma FailsTooEarly(s: State)
    requires FirstCommand(s)
    ensures Legal(s, AnsweredTooEarly()) && Exec(s, AnsweredTooEarly()).failed
  {
    InterruptsEarly(s);
    EofComesFirst(Next(Next(Next(s, RequestInput), PublishWaiting), Interrupt));
    ExecThree(s, RequestInput, PublishWaiting, Interrupt, [TakeOrder, StoreLength, StoreState] + [SendRequest, TakeRequest]);
  }

  lemma FailsTooLate(s: State)
    requires FirstCommand(s)
    ensures Legal(s, SentTooLate()) && Exec(s, SentTooLate()).failed && Exec(s, SentTooLate()).workerRequests == 0
  {
    var t := Next(Next(Next(s, FinishCommand), Interrupt), TakeResult);
    ExecLast(t, TakeOrder);
    ExecThree(s, FinishCommand, Interrupt, TakeResult, [TakeOrder]);
    assert [FinishCommand, Interrupt, TakeResult] + [TakeOrder] == SentTooLate();
  }

  /** An interrupt that overtakes a request answers it, and the request then arrives for nothing. */
  lemma InterruptOvertakesRequest()
    ensures var steps := [StartCommand, TakeOrder, BeginCommand] + AnsweredTooEarly();
      Legal(Initial(true), steps) && Exec(Initial(true), steps).failed
  {
    var s := Initial(true);
    CommandStarts(s, AnsweredTooEarly());
    FailsTooEarly(Next(Next(Next(s, StartCommand), TakeOrder), BeginCommand));
  }

  /** An interrupt that the result overtakes finds no command; no input is ever requested. */
  lemma ResultOvertakesInterrupt()
    ensures var steps := [StartCommand, TakeOrder, BeginCommand] + SentTooLate();
      Legal(Initial(true), steps) && Exec(Initial(true), steps).failed && Exec(Initial(true), steps).workerRequests == 0
  {
    var s := Initial(true);
    CommandStarts(s, SentTooLate());
    FailsTooLate(Next(Next(Next(s, StartCommand), TakeOrder), BeginCommand));
  }
}
