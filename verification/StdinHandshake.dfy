/**
 Interactive input of a Python terminal: a worker thread blocks on shared memory, a host fills it.
 One state machine covers both hosts: the page itself, which writes the memory directly, and the
 opaque host, which writes it on orders the page sends by message.
 */
module StdinHandshake {
  import opened Leb128
  import opened Utf8Text

  const MAX_LINE_BYTES := 64 * 1024
  const MAX_INPUT_BYTES := 1024 * 1024
  const MAX_INPUT_REQUESTS := 4_096
  const MAX_COMMANDS := 4_096

  datatype Control = Idle | Waiting | Value | Eof

  /** Where the worker is: between commands, running one, or in a call of its input function. */
  datatype WorkerPc =
    | Resting | Running | Cleared | Published | Blocked
    | SawValue | Sized(len: nat) | Copied(line: Utf8) | LengthReset(line: Utf8)
    | SawEof | Rejected

  /** Where the host is in one write of the shared memory. */
  datatype HostPc =
    | HostIdle
    | Checked(line: Bytes) | Zeroed(line: Bytes) | Written(line: Bytes) | SizedUp(line: Bytes)
    | EofChecked | EofSized

  datatype Order = InputOrder(line: Bytes) | EofOrder | InterruptOrder | CommandOrder

  /**
     Where a command and its result are. `issued` counts the commands of the page, `counted` those the other side has
     let pass. A result travels behind the requests of its command, and the next command only starts after it.
   */
  datatype Command = Command(
    pageActive: bool, interrupted: bool, hostActive: bool, starting: bool, result: bool, resultToPage: bool,
    issued: nat, counted: nat)

  /** `accepted` and `returned` are the bytes given and taken, `received` the texts that Python gets, as UTF-8. */
  datatype State = State(
    isOpaque: bool,
    control: Control, length: nat, data: Bytes,
    worker: WorkerPc, workerRequests: nat, workerBytes: nat,
    requests: nat, host: HostPc, ready: bool, hostRequests: nat, hostBytes: nat,
    toPage: nat, pageWaiting: bool, pageRequests: nat, orders: seq<Order>,
    acceptedBytes: nat, accepted: seq<Utf8>, returned: seq<Utf8>, received: seq<Utf8>,
    command: Command, failed: bool, closed: bool)

  function Zeros(n: nat): Bytes {
    seq(n, _ => 0)
  }

  function Initial(isOpaque: bool): State {
    State(
      isOpaque, Idle, 0, Zeros(MAX_LINE_BYTES), Resting, 0, 0, 0, HostIdle, false, 0, 0, 0, false, 0, [],
      0, [], [], [], Command(false, false, false, false, false, false, 0, 0), false, false)
  }

  datatype Step =
    | RequestInput | PublishWaiting | SendRequest | Wake | LoadLength | CopyData | ResetLength | ReturnLine | ReturnEof
    | TakeRequest | ZeroData | StoreData | StoreLength | StoreState
    | TakeOrder | PageTakesRequest
    | StartCommand | BeginCommand | FinishCommand | TakeResult | PageTakesResult
    | Submit(line: Utf8) | SendEof | Interrupt
    | Close

  predicate Enabled(s: State, step: Step) {
    !s.failed && !s.closed &&
    match step
    case RequestInput => s.worker.Running? && s.workerRequests < MAX_INPUT_REQUESTS
    case PublishWaiting => s.worker.Cleared?
    case SendRequest => s.worker.Published?
    case Wake => s.worker.Blocked? && !s.control.Waiting?
    case LoadLength => s.worker.SawValue?
    case CopyData => s.worker.Sized? && s.worker.len <= |s.data|
    case ResetLength => s.worker.Copied?
    case ReturnLine => s.worker.LengthReset?
    case ReturnEof => s.worker.SawEof?
    case TakeRequest => s.host.HostIdle? && s.requests > 0
    case ZeroData => s.host.Checked?
    case StoreData => s.host.Zeroed? && |s.host.line| <= |s.data|
    case StoreLength => s.host.Written? || s.host.EofChecked?
    case StoreState => s.host.SizedUp? || s.host.EofSized?
    case TakeOrder => s.host.HostIdle? && s.orders != []
    case PageTakesRequest => s.toPage > 0
    case StartCommand => !s.command.pageActive && (s.isOpaque || s.host.HostIdle?)
    case BeginCommand => s.worker.Resting? && s.command.starting
    case FinishCommand => s.worker.Running?
    case TakeResult => s.host.HostIdle? && s.requests == 0 && s.command.result
    case PageTakesResult => s.toPage == 0 && s.command.resultToPage
    case Submit(line) =>
      && s.command.pageActive && |line| <= MAX_LINE_BYTES && s.acceptedBytes + |line| <= MAX_INPUT_BYTES
      && if s.isOpaque then s.pageWaiting else s.host.HostIdle? && s.ready && s.control.Waiting?
    case SendEof => s.command.pageActive && if s.isOpaque then s.pageWaiting else s.host.HostIdle? && s.ready && s.control.Waiting?
    case Interrupt => s.command.pageActive && !s.command.interrupted && (s.isOpaque || s.host.HostIdle?)
    case Close => true
  }

  /** The worker's own steps, one access of the shared memory each. */
  function WorkerStep(s: State, step: Step): State
    requires Enabled(s, step)
  {
    match step
    case RequestInput => s.(worker := Cleared, length := 0, workerRequests := s.workerRequests + 1)
    case PublishWaiting => s.(worker := Published, control := Waiting)
    case SendRequest => s.(worker := Blocked, requests := s.requests + 1)
    case Wake => s.(worker := if s.control.Eof? then SawEof else if s.control.Value? then SawValue else Rejected)
    case LoadLength =>
      if s.length > MAX_LINE_BYTES || s.workerBytes + s.length > MAX_INPUT_BYTES then s.(worker := Rejected)
      else s.(worker := Sized(s.length), workerBytes := s.workerBytes + s.length)
    case CopyData =>
      var line := s.data[..s.worker.len];
      if ValidUtf8(line) then s.(worker := Copied(line)) else s.(worker := Rejected)
    case ResetLength => s.(worker := LengthReset(s.worker.line), length := 0)
    case ReturnLine =>
      var line := s.worker.line;
      s.(worker := Running, control := Idle, returned := s.returned + [line], received := s.received + [DropBom(line)])
    case ReturnEof => s.(worker := Running, control := Idle)
    case _ => s
  }

  /** The host's writes, one store each. */
  function WriterStep(s: State, step: Step): State
    requires Enabled(s, step)
  {
    match step
    case ZeroData => s.(host := Zeroed(s.host.line), data := Zeros(|s.data|))
    case StoreData => s.(host := Written(s.host.line), data := s.host.line + s.data[|s.host.line|..])
    case StoreLength =>
      if s.host.EofChecked? then s.(host := EofSized, length := 0)
      else s.(host := SizedUp(s.host.line), length := |s.host.line|)
    case StoreState => s.(host := HostIdle, control := if s.host.EofSized? then Eof else Value)
    case _ => s
  }

  /** Whoever answers requests has a command active. */
  predicate Serving(s: State) {
    if s.isOpaque then s.command.hostActive else s.command.pageActive
  }

  function TakeOneRequest(s: State): State
    requires s.requests > 0
  {
    var t := s.(requests := s.requests - 1, hostRequests := s.hostRequests + 1);
    if !Serving(s) || !s.control.Waiting? || s.ready || s.hostRequests + 1 > MAX_INPUT_REQUESTS then t.(failed := true)
    else t.(ready := true, toPage := if s.isOpaque then s.toPage + 1 else s.toPage)
  }

  /** The opaque host's handling of one order from the page. */
  function TakeOneOrder(s: State): State
    requires s.orders != []
  {
    var t := s.(orders := s.orders[1..]);
    match s.orders[0]
    case InputOrder(line) =>
      if !s.ready || !s.control.Waiting? || |line| > |s.data| || s.hostBytes + |line| > MAX_INPUT_BYTES then t.(failed := true)
      else t.(host := Checked(line), hostBytes := s.hostBytes + |line|, ready := false)
    case EofOrder => if !s.ready || !s.control.Waiting? then t.(failed := true) else t.(host := EofChecked, ready := false)
    case CommandOrder =>
      if s.command.hostActive || s.command.counted >= MAX_COMMANDS then t.(failed := true)
      else t.(command := s.command.(hostActive := true, starting := true, counted := s.command.counted + 1))
    case InterruptOrder =>
      if !s.command.hostActive then t.(failed := true)
      else t.(host := if s.control.Waiting? then EofChecked else HostIdle, ready := false)
  }

  /** The way of a command from the page to the worker, and of its result back. */
  function CommandStep(s: State, step: Step): State
    requires Enabled(s, step)
  {
    var c := s.command;
    match step
    case StartCommand =>
      var d := c.(pageActive := true, interrupted := false, issued := c.issued + 1);
      if s.isOpaque then s.(command := d, orders := s.orders + [CommandOrder]) else s.(command := d.(starting := true))
    case BeginCommand =>
      if !s.isOpaque && c.counted >= MAX_COMMANDS then s.(command := c.(starting := false), failed := true)
      else s.(worker := Running, command := c.(starting := false, counted := if s.isOpaque then c.counted else c.counted + 1))
    case FinishCommand => s.(worker := Resting, command := c.(result := true))
    case TakeResult =>
      if !Serving(s) then s.(command := c.(result := false), failed := true)
      else if s.isOpaque then s.(command := c.(result := false, hostActive := false, resultToPage := true), ready := false)
      else s.(command := c.(result := false, pageActive := false), ready := false)
    case PageTakesResult =>
      if !c.pageActive then s.(command := c.(resultToPage := false), failed := true)
      else s.(command := c.(resultToPage := false, pageActive := false), pageWaiting := false)
    case _ => s
  }

  /** The calls of the page's user. */
  function PageStep(s: State, step: Step): State
    requires Enabled(s, step)
  {
    match step
    case Submit(line) =>
      var t := s.(accepted := s.accepted + [line], acceptedBytes := s.acceptedBytes + |line|);
      if s.isOpaque then t.(orders := s.orders + [InputOrder(line)], pageWaiting := false)
      else t.(host := Checked(line), ready := false)
    case SendEof =>
      if s.isOpaque then s.(orders := s.orders + [EofOrder], pageWaiting := false) else s.(host := EofChecked, ready := false)
    case Interrupt =>
      var c := s.command.(interrupted := true);
      if s.isOpaque then s.(orders := s.orders + [InterruptOrder], pageWaiting := false, command := c)
      else if s.ready && s.control.Waiting? then s.(host := EofChecked, ready := false, command := c)
      else s.(command := c)
    case Close => s.(closed := true)
    case _ => s
  }

  function Next(s: State, step: Step): State
    requires Enabled(s, step)
  {
    match step
    case TakeRequest => TakeOneRequest(s)
    case TakeOrder => TakeOneOrder(s)
    case PageTakesRequest =>
      var t := s.(toPage := s.toPage - 1, pageRequests := s.pageRequests + 1);
      if !s.command.pageActive || s.pageWaiting || s.pageRequests + 1 > MAX_INPUT_REQUESTS then t.(failed := true) else t.(pageWaiting := true)
    case ZeroData => WriterStep(s, step)
    case StoreData => WriterStep(s, step)
    case StoreLength => WriterStep(s, step)
    case StoreState => WriterStep(s, step)
    case StartCommand => CommandStep(s, step)
    case BeginCommand => CommandStep(s, step)
    case FinishCommand => CommandStep(s, step)
    case TakeResult => CommandStep(s, step)
    case PageTakesResult => CommandStep(s, step)
    case Submit(_) => PageStep(s, step)
    case SendEof => PageStep(s, step)
    case Interrupt => PageStep(s, step)
    case Close => PageStep(s, step)
    case _ => WorkerStep(s, step)
  }

  predicate Legal(s: State, steps: seq<Step>)
    decreases |steps|
  {
    steps == [] || (Enabled(s, steps[0]) && Legal(Next(s, steps[0]), steps[1..]))
  }

  function Exec(s: State, steps: seq<Step>): State
    requires Legal(s, steps)
    decreases |steps|
  {
    if steps == [] then s else Exec(Next(s, steps[0]), steps[1..])
  }

  // ----- what holds in every reachable state

  predicate Reading(w: WorkerPc) {
    w.SawValue? || w.Sized? || w.Copied? || w.LengthReset?
  }

  predicate Writing(h: HostPc) {
    !h.HostIdle?
  }

  /** Who may touch the shared memory: the host only while the worker waits, the worker only afterwards. */
  ghost predicate Exclusive(s: State) {
    && !s.worker.Rejected?
    && ((s.worker.Resting? || s.worker.Running? || s.worker.Cleared?) ==> s.control.Idle?)
    && ((s.worker.Published? || s.worker.Blocked?) ==> !s.control.Idle?)
    && (Reading(s.worker) ==> s.control.Value?)
    && (s.worker.SawEof? ==> s.control.Eof?)
    && (Writing(s.host) || s.ready ==> s.control.Waiting?)
    && !(Writing(s.host) && s.ready)
  }

  /** The line on its way through the memory. */
  function InFlight(s: State): seq<Bytes> {
    if s.host.Checked? || s.host.Zeroed? || s.host.Written? || s.host.SizedUp? then [s.host.line]
    else if !s.control.Value? then []
    else if s.worker.Copied? || s.worker.LengthReset? then [s.worker.line]
    else if s.worker.Sized? then (if s.worker.len <= |s.data| then [s.data[..s.worker.len]] else [])
    else if s.length <= |s.data| then [s.data[..s.length]]
    else []
  }

  ghost predicate MemoryHolds(s: State) {
    && |s.data| == MAX_LINE_BYTES
    && ((s.host.Checked? || s.host.Zeroed? || s.host.Written? || s.host.SizedUp?) ==> |s.host.line| <= MAX_LINE_BYTES)
    && (s.host.Written? || s.host.SizedUp? ==> s.data[..|s.host.line|] == s.host.line)
    && (s.host.SizedUp? ==> s.length == |s.host.line|)
    && (s.control.Value? && (s.worker.Published? || s.worker.Blocked? || s.worker.SawValue?) ==> s.length <= MAX_LINE_BYTES)
    && (s.worker.Sized? ==> s.worker.len <= MAX_LINE_BYTES)
  }

  function Ordered(orders: seq<Order>): seq<Bytes> {
    if orders == [] then []
    else (if orders[0].InputOrder? then [orders[0].line] else []) + Ordered(orders[1..])
  }

  function Sum(lines: seq<Bytes>): nat {
    if lines == [] then 0 else |lines[0]| + Sum(lines[1..])
  }

  /** Every accepted line was returned, is on its way, or is still ordered: none is lost, doubled or reordered before a failure. */
  ghost predicate Conserved(s: State) {
    && s.returned + InFlight(s) <= s.accepted
    && (!s.failed ==> s.accepted == s.returned + InFlight(s) + Ordered(s.orders))
  }

  /** Python gets the decoded text of each line taken. */
  ghost predicate Decoded(s: State) {
    && |s.received| == |s.returned|
    && (forall i | 0 <= i < |s.returned| :: s.received[i] == DropBom(s.returned[i]))
  }

  function Taken(w: WorkerPc): nat {
    if w.Sized? then w.len else if w.Copied? || w.LengthReset? then |w.line| else 0
  }

  ghost predicate Counted(s: State) {
    && Sum(s.accepted) == s.acceptedBytes <= MAX_INPUT_BYTES
    && (forall i | 0 <= i < |s.accepted| :: |s.accepted[i]| <= MAX_LINE_BYTES)
    && s.workerBytes == Sum(s.returned) + Taken(s.worker)
    && (s.isOpaque ==> s.hostBytes == Sum(s.returned) + Sum(InFlight(s)))
    && (!s.isOpaque ==> s.orders == [] && s.toPage == 0)
    && s.workerRequests <= MAX_INPUT_REQUESTS
    && s.hostRequests + s.requests + (if s.worker.Cleared? || s.worker.Published? then 1 else 0) == s.workerRequests
    && (s.isOpaque && !s.failed ==> s.pageRequests + s.toPage == s.hostRequests)
  }

  ghost predicate Inv(s: State) {
    Exclusive(s) && MemoryHolds(s) && Conserved(s) && Decoded(s) && Counted(s)
  }

  // ----- every step keeps it

  lemma {:induction false} SumAppend(a: seq<Bytes>, b: seq<Bytes>)
    ensures Sum(a + b) == Sum(a) + Sum(b)
    decreases |a|
  {
    if a == [] {
      assert a + b == b;
    } else {
      assert (a + b)[1..] == a[1..] + b;
      SumAppend(a[1..], b);
    }
  }

  lemma SumOne(line: Bytes)
    ensures Sum([line]) == |line|
  {
    assert [line][1..] == [];
  }

  lemma {:induction false} OrderedAppend(a: seq<Order>, b: seq<Order>)
    ensures Ordered(a + b) == Ordered(a) + Ordered(b)
    decreases |a|
  {
    if a == [] {
      assert a + b == b;
    } else {
      assert (a + b)[1..] == a[1..] + b;
      OrderedAppend(a[1..], b);
    }
  }

  lemma OrderedOne(o: Order)
    ensures Ordered([o]) == if o.InputOrder? then [o.line] else []
  {
    assert [o][1..] == [];
  }

  /** Returned and in-flight bytes are among the accepted ones. */
  lemma AcceptedCovers(s: State)
    requires Conserved(s) && Counted(s) && !s.failed
    ensures Sum(s.returned) + Sum(InFlight(s)) + Sum(Ordered(s.orders)) == s.acceptedBytes
    ensures forall line | line in InFlight(s) + Ordered(s.orders) :: |line| <= MAX_LINE_BYTES && ValidUtf8(line)
  {
    SumAppend(s.returned + InFlight(s), Ordered(s.orders));
    SumAppend(s.returned, InFlight(s));
    assert s.accepted == s.returned + (InFlight(s) + Ordered(s.orders));
    forall line | line in InFlight(s) + Ordered(s.orders)
      ensures |line| <= MAX_LINE_BYTES && ValidUtf8(line)
    {
      assert line in s.accepted;
    }
  }

  lemma WorkerKeepsControl(s: State, step: Step)
    requires Inv(s) && Enabled(s, step)
    requires step.RequestInput? || step.PublishWaiting? || step.SendRequest? || step.Wake? || step.ReturnEof?
    ensures Inv(Next(s, step))
  {
    var t := Next(s, step);
    assert InFlight(t) == InFlight(s);
  }

  /** The worker never refuses a length: the bytes it has taken and those on their way were all accepted. */
  lemma LengthFits(s: State)
    requires Inv(s) && s.worker.SawValue? && !s.failed
    ensures s.length <= MAX_LINE_BYTES && s.workerBytes + s.length <= MAX_INPUT_BYTES
  {
    AcceptedCovers(s);
    SumOne(s.data[..s.length]);
  }

  lemma LoadKeeps(s: State)
    requires Inv(s) && Enabled(s, LoadLength)
    ensures Inv(Next(s, LoadLength))
  {
    LengthFits(s);
    assert InFlight(Next(s, LoadLength)) == InFlight(s);
  }

  /** Nor does it refuse a text. */
  lemma TextIsValid(s: State)
    requires Inv(s) && s.worker.Sized? && !s.failed
    ensures ValidUtf8(s.data[..s.worker.len])
  {
    AcceptedCovers(s);
    assert s.data[..s.worker.len] in InFlight(s) + Ordered(s.orders);
  }

  lemma CopyKeeps(s: State)
    requires Inv(s) && Enabled(s, CopyData)
    ensures Inv(Next(s, CopyData))
  {
    TextIsValid(s);
    assert InFlight(Next(s, CopyData)) == InFlight(s);
  }

  lemma ResetKeeps(s: State)
    requires Inv(s) && Enabled(s, ResetLength)
    ensures Inv(Next(s, ResetLength))
  {
    assert InFlight(Next(s, ResetLength)) == InFlight(s);
  }

  lemma ReturnConserves(s: State, line: Utf8, t: State)
    requires Conserved(s) && Decoded(s) && InFlight(s) == [line] && InFlight(t) == [] && t.failed == s.failed
    requires t.returned == s.returned + [line] && t.received == s.received + [DropBom(line)]
    requires t.accepted == s.accepted && t.orders == s.orders
    ensures Conserved(t) && Decoded(t) && Sum(t.returned) == Sum(s.returned) + |line|
    ensures Sum(InFlight(t)) == Sum(InFlight(s)) - |line|
  {
    SumAppend(s.returned, [line]);
    SumOne(line);
    assert t.returned + InFlight(t) + Ordered(t.orders) == s.returned + [line] + Ordered(s.orders);
  }

  lemma ReturnKeeps(s: State)
    requires Inv(s) && Enabled(s, ReturnLine)
    ensures Inv(Next(s, ReturnLine))
  {
    ReturnConserves(s, s.worker.line, Next(s, ReturnLine));
  }

  lemma StoreDataKeeps(s: State)
    requires Inv(s) && Enabled(s, StoreData)
    ensures Inv(Next(s, StoreData))
  {
    var t := Next(s, StoreData);
    assert InFlight(t) == InFlight(s);
    assert t.data[..|s.host.line|] == s.host.line;
  }

  lemma WriterKeeps(s: State, step: Step)
    requires Inv(s) && Enabled(s, step) && (step.ZeroData? || step.StoreLength?)
    ensures Inv(Next(s, step))
  {
    assert InFlight(Next(s, step)) == InFlight(s);
  }

  lemma StoreStateKeeps(s: State)
    requires Inv(s) && Enabled(s, StoreState)
    ensures Inv(Next(s, StoreState))
  {
    var t := Next(s, StoreState);
    assert InFlight(t) == InFlight(s);
  }

  lemma TakeRequestKeeps(s: State)
    requires Inv(s) && Enabled(s, TakeRequest)
    ensures Inv(Next(s, TakeRequest))
  {
    assert InFlight(Next(s, TakeRequest)) == InFlight(s);
  }

  lemma PageTakesKeeps(s: State)
    requires Inv(s) && Enabled(s, PageTakesRequest)
    ensures Inv(Next(s, PageTakesRequest))
  {
    assert InFlight(Next(s, PageTakesRequest)) == InFlight(s);
  }

  lemma OrderPopped(s: State)
    requires s.orders != []
    ensures Ordered(s.orders) == Ordered([s.orders[0]]) + Ordered(s.orders[1..])
  {
    OrderedOne(s.orders[0]);
  }

  /** Taking an order off the queue leaves the lines alone; an input line moves into the memory. */
  lemma ControlOrderConserves(s: State, t: State)
    requires Conserved(s) && !s.failed && s.orders != [] && !s.orders[0].InputOrder?
    requires t.returned == s.returned && t.accepted == s.accepted && t.orders == s.orders[1..] && InFlight(t) == InFlight(s)
    ensures Conserved(t)
  {
    OrderPopped(s);
    OrderedOne(s.orders[0]);
  }

  lemma AnswerOrderKeeps(s: State)
    requires Inv(s) && Enabled(s, TakeOrder) && (s.orders[0].EofOrder? || s.orders[0].InterruptOrder?)
    ensures Inv(Next(s, TakeOrder))
  {
    var t := Next(s, TakeOrder);
    assert InFlight(t) == InFlight(s);
    ControlOrderConserves(s, t);
  }

  lemma CommandOrderKeeps(s: State)
    requires Inv(s) && Enabled(s, TakeOrder) && s.orders[0].CommandOrder?
    ensures Inv(Next(s, TakeOrder))
  {
    var t := Next(s, TakeOrder);
    assert InFlight(t) == InFlight(s);
    ControlOrderConserves(s, t);
  }

  lemma OrderKeeps(s: State)
    requires Inv(s) && Enabled(s, TakeOrder)
    ensures Inv(Next(s, TakeOrder))
  {
    match s.orders[0]
    case InputOrder(line) => InputOrderKeeps(s, line);
    case CommandOrder => CommandOrderKeeps(s);
    case _ => AnswerOrderKeeps(s);
  }

  lemma InputFits(s: State, line: Bytes)
    requires Inv(s) && !s.failed && s.isOpaque && s.orders != [] && s.orders[0] == InputOrder(line)
    ensures |line| <= MAX_LINE_BYTES && s.hostBytes + |line| <= MAX_INPUT_BYTES
  {
    AcceptedCovers(s);
    OrderPopped(s);
    OrderedOne(s.orders[0]);
    assert line in Ordered(s.orders);
    SumAppend([line], Ordered(s.orders[1..]));
    SumOne(line);
  }

  lemma InputOrderConserves(s: State, line: Bytes, t: State)
    requires Conserved(s) && !s.failed && s.orders != [] && s.orders[0] == InputOrder(line)
    requires t.returned == s.returned && t.accepted == s.accepted && t.orders == s.orders[1..]
    requires if t.failed then InFlight(t) == InFlight(s) else InFlight(s) == [] && InFlight(t) == [line]
    ensures Conserved(t)
  {
    OrderPopped(s);
    OrderedOne(s.orders[0]);
    if !t.failed {
      assert s.returned + [] + ([line] + Ordered(s.orders[1..])) == t.returned + [line] + Ordered(t.orders);
    }
  }

  /** The opaque host never refuses an input for its size: the page has already counted it. */
  lemma InputOrderKeeps(s: State, line: Bytes)
    requires Inv(s) && Enabled(s, TakeOrder) && s.orders[0] == InputOrder(line)
    ensures Inv(Next(s, TakeOrder))
  {
    var t := Next(s, TakeOrder);
    InputFits(s, line);
    if s.ready && s.control.Waiting? {
      assert InFlight(s) == [] && InFlight(t) == [line];
      SumOne(line);
    } else {
      assert t.failed && InFlight(t) == InFlight(s);
    }
    InputOrderConserves(s, line, t);
  }

  lemma SubmitDirectKeeps(s: State, line: Utf8)
    requires Inv(s) && !s.isOpaque && Enabled(s, Submit(line))
    ensures Inv(Next(s, Submit(line)))
  {
    var t := Next(s, Submit(line));
    SumAppend(s.accepted, [line]);
    SumOne(line);
    assert InFlight(s) == [] && InFlight(t) == [line];
    assert Ordered(s.orders) == [];
  }

  /** Sending an order changes neither the memory nor the host. */
  lemma OrderSent(s: State, o: Order, t: State)
    requires Inv(s) && s.isOpaque && !s.failed && !o.InputOrder?
    requires t == s.(orders := s.orders + [o], pageWaiting := t.pageWaiting, command := t.command)
    ensures Inv(t)
  {
    OrderedAppend(s.orders, [o]);
    OrderedOne(o);
    assert InFlight(t) == InFlight(s);
  }

  lemma LineOrdered(before: seq<Bytes>, orders: seq<Order>, line: Bytes)
    ensures before + Ordered(orders + [InputOrder(line)]) == before + Ordered(orders) + [line]
  {
    OrderedAppend(orders, [InputOrder(line)]);
    OrderedOne(InputOrder(line));
  }

  lemma SubmitOpaqueKeeps(s: State, line: Utf8)
    requires Inv(s) && s.isOpaque && Enabled(s, Submit(line))
    ensures Inv(Next(s, Submit(line)))
  {
    assert InFlight(Next(s, Submit(line))) == InFlight(s);
    LineOrdered(s.returned + InFlight(s), s.orders, line);
    SumAppend(s.accepted, [line]);
    SumOne(line);
  }

  lemma EofKeeps(s: State)
    requires Inv(s) && Enabled(s, SendEof)
    ensures Inv(Next(s, SendEof))
  {
    var t := Next(s, SendEof);
    if s.isOpaque {
      OrderSent(s, EofOrder, t);
    } else {
      assert InFlight(t) == InFlight(s);
    }
  }

  lemma InterruptKeeps(s: State)
    requires Inv(s) && Enabled(s, Interrupt)
    ensures Inv(Next(s, Interrupt))
  {
    var t := Next(s, Interrupt);
    if s.isOpaque {
      OrderSent(s, InterruptOrder, t);
    } else {
      assert InFlight(t) == InFlight(s);
    }
  }

  lemma CloseKeeps(s: State)
    requires Inv(s) && Enabled(s, Close)
    ensures Inv(Next(s, Close))
  {
    assert InFlight(Next(s, Close)) == InFlight(s);
  }

  lemma StartKeeps(s: State)
    requires Inv(s) && Enabled(s, StartCommand)
    ensures Inv(Next(s, StartCommand))
  {
    var t := Next(s, StartCommand);
    if s.isOpaque {
      OrderSent(s, CommandOrder, t);
    } else {
      assert InFlight(t) == InFlight(s);
    }
  }

  lemma WorkerCommandKeeps(s: State, step: Step)
    requires Inv(s) && Enabled(s, step) && (step.BeginCommand? || step.FinishCommand?)
    ensures Inv(Next(s, step))
  {
    assert InFlight(Next(s, step)) == InFlight(s);
  }

  /** What the page and the host remember of a command does not touch the memory. */
  lemma FlagsKeep(s: State, t: State)
    requires Inv(s) && !s.failed && (t.ready ==> s.ready)
    requires t == s.(command := t.command, ready := t.ready, pageWaiting := t.pageWaiting, failed := t.failed)
    ensures Inv(t)
  {
    assert InFlight(t) == InFlight(s);
  }

  lemma ResultKeeps(s: State, step: Step)
    requires Inv(s) && Enabled(s, step) && (step.TakeResult? || step.PageTakesResult?)
    ensures Inv(Next(s, step))
  {
    FlagsKeep(s, Next(s, step));
  }

  lemma StepKeepsInv(s: State, step: Step)
    requires Inv(s) && Enabled(s, step)
    ensures Inv(Next(s, step))
  {
    match step
    case LoadLength => LoadKeeps(s);
    case CopyData => CopyKeeps(s);
    case ResetLength => ResetKeeps(s);
    case ReturnLine => ReturnKeeps(s);
    case TakeRequest => TakeRequestKeeps(s);
    case ZeroData => WriterKeeps(s, step);
    case StoreData => StoreDataKeeps(s);
    case StoreLength => WriterKeeps(s, step);
    case StoreState => StoreStateKeeps(s);
    case TakeOrder => OrderKeeps(s);
    case PageTakesRequest => PageTakesKeeps(s);
    case StartCommand => StartKeeps(s);
    case BeginCommand => WorkerCommandKeeps(s, step);
    case FinishCommand => WorkerCommandKeeps(s, step);
    case TakeResult => ResultKeeps(s, step);
    case PageTakesResult => ResultKeeps(s, step);
    case Submit(line) => if s.isOpaque { SubmitOpaqueKeeps(s, line); } else { SubmitDirectKeeps(s, line); }
    case SendEof => EofKeeps(s);
    case Interrupt => InterruptKeeps(s);
    case Close => CloseKeeps(s);
    case _ => WorkerKeepsControl(s, step);
  }

  lemma {:induction false} RunKeepsInv(s: State, steps: seq<Step>)
    requires Inv(s) && Legal(s, steps)
    ensures Inv(Exec(s, steps))
    decreases |steps|
  {
    if steps != [] {
      StepKeepsInv(s, steps[0]);
      RunKeepsInv(Next(s, steps[0]), steps[1..]);
    }
  }

  lemma InitialHolds(isOpaque: bool)
    ensures Inv(Initial(isOpaque))
    ensures !isOpaque ==> DirectInv(Initial(isOpaque))
  {
  }

  ghost predicate Safe(s: State) {
    && |s.received| <= |s.accepted|
    && (forall i | 0 <= i < |s.received| :: s.received[i] == DropBom(s.accepted[i]))
    && (Writing(s.host) ==> s.control.Waiting? && (s.worker.Published? || s.worker.Blocked?))
    && (Reading(s.worker) ==> !Writing(s.host) && !s.ready)
    && !s.worker.Rejected?
  }

  lemma InvIsSafe(s: State)
    requires Inv(s)
    ensures Safe(s)
  {
    assert s.returned <= s.returned + InFlight(s) <= s.accepted;
    forall i | 0 <= i < |s.received|
      ensures s.received[i] == DropBom(s.accepted[i])
    {
      assert s.accepted[i] == s.returned[i];
    }
  }

  /**
     Over every interleaving: Python receives, in order, the decoded texts of the first lines accepted;
     the host writes only while the worker waits, so never while it reads; and the worker's own checks
     of what it reads never fail.
   */
  lemma HandshakeIsSafe(isOpaque: bool, steps: seq<Step>)
    requires Legal(Initial(isOpaque), steps)
    ensures Safe(Exec(Initial(isOpaque), steps))
  {
    InitialHolds(isOpaque);
    RunKeepsInv(Initial(isOpaque), steps);
    InvIsSafe(Exec(Initial(isOpaque), steps));
  }

  /** Python receives an accepted line unchanged exactly when that line does not start with a byte order mark. */
  lemma LineArrivesIff(isOpaque: bool, steps: seq<Step>, i: nat)
    requires Legal(Initial(isOpaque), steps) && i < |Exec(Initial(isOpaque), steps).received|
    ensures var s := Exec(Initial(isOpaque), steps);
      i < |s.accepted| && (s.received[i] == s.accepted[i] <==> !StartsWithBom(s.accepted[i]))
  {
    HandshakeIsSafe(isOpaque, steps);
    var line := Exec(Initial(isOpaque), steps).accepted[i];
    if StartsWithBom(line) {
      assert |DropBom(line)| == |line| - 3;
    }
  }

  // ----- one command at a time

  function One(b: bool): nat {
    if b then 1 else 0
  }

  function CommandsIn(orders: seq<Order>): nat {
    if orders == [] then 0 else One(orders[0].CommandOrder?) + CommandsIn(orders[1..])
  }

  lemma {:induction false} CommandsInMore(orders: seq<Order>, o: Order)
    ensures CommandsIn(orders + [o]) == CommandsIn(orders) + One(o.CommandOrder?)
    decreases |orders|
  {
    if orders == [] {
      assert orders + [o] == [o] && [o][1..] == [];
    } else {
      assert (orders + [o])[1..] == orders[1..] + [o];
      CommandsInMore(orders[1..], o);
    }
  }

  /** A command is in one place, from the page's call until the page has its result, and the host is active in between. */
  ghost predicate OneCommand(s: State) {
    var c := s.command;
    && CommandsIn(s.orders) + One(c.starting) + One(!s.worker.Resting?) + One(c.result) + One(c.resultToPage) == One(c.pageActive)
    && (s.isOpaque ==> c.hostActive == (c.starting || !s.worker.Resting? || c.result))
    && (!s.isOpaque ==> s.orders == [] && !c.resultToPage)
    && c.issued == c.counted + CommandsIn(s.orders) + One(!s.isOpaque && c.starting)
    && c.counted <= MAX_COMMANDS
  }

  lemma OrderKeepsOneCommand(s: State)
    requires OneCommand(s) && Enabled(s, TakeOrder) && !Next(s, TakeOrder).failed && s.isOpaque
    ensures OneCommand(Next(s, TakeOrder))
  {
  }

  lemma StartKeepsOneCommand(s: State)
    requires OneCommand(s) && Enabled(s, StartCommand)
    ensures OneCommand(Next(s, StartCommand))
  {
    CommandsInMore(s.orders, CommandOrder);
  }

  lemma PageKeepsOneCommand(s: State, step: Step)
    requires OneCommand(s) && Enabled(s, step) && (step.Submit? || step.SendEof? || step.Interrupt?)
    ensures OneCommand(Next(s, step))
  {
    CommandsInMore(s.orders, if step.Submit? then InputOrder(step.line) else if step.SendEof? then EofOrder else InterruptOrder);
  }

  /** The command, the queue of orders and the worker's being at work are as before. */
  predicate Leaves(s: State, t: State) {
    && t.command == s.command && t.orders == s.orders && t.isOpaque == s.isOpaque && t.worker.Resting? == s.worker.Resting?
  }

  predicate MovesCommand(step: Step) {
    || step.TakeOrder? || step.StartCommand? || step.BeginCommand? || step.FinishCommand? || step.TakeResult?
    || step.PageTakesResult? || step.Submit? || step.SendEof? || step.Interrupt?
  }

  lemma LeavesCommand(s: State, step: Step)
    requires Enabled(s, step) && !MovesCommand(step)
    ensures Leaves(s, Next(s, step))
  {
  }

  lemma SameCommand(s: State, t: State)
    requires OneCommand(s) && Leaves(s, t)
    ensures OneCommand(t)
  {
  }

  lemma ResultKeepsOneCommand(s: State, step: Step)
    requires OneCommand(s) && Enabled(s, step) && !Next(s, step).failed
    requires step.BeginCommand? || step.FinishCommand? || step.TakeResult? || step.PageTakesResult?
    ensures OneCommand(Next(s, step))
  {
  }

  lemma StepKeepsOneCommand(s: State, step: Step)
    requires OneCommand(s) && Enabled(s, step) && !Next(s, step).failed
    ensures OneCommand(Next(s, step))
  {
    if step.TakeOrder? {
      OrderKeepsOneCommand(s);
    } else if step.StartCommand? {
      StartKeepsOneCommand(s);
    } else if step.Submit? || step.SendEof? || step.Interrupt? {
      PageKeepsOneCommand(s, step);
    } else if MovesCommand(step) {
      ResultKeepsOneCommand(s, step);
    } else {
      LeavesCommand(s, step);
      SameCommand(s, Next(s, step));
    }
  }

  // ----- the page as its own host

  /** The page itself answers each request once, so the request it sees is always the one being waited for. */
  ghost predicate Answering(s: State) {
    && OneCommand(s) && s.requests <= 1
    && (s.requests == 1 ==> s.worker.Blocked? && s.control.Waiting? && !s.ready && s.host.HostIdle?)
    && (s.ready || Writing(s.host) ==> s.worker.Blocked?)
    && (s.worker.Published? ==> s.control.Waiting?)
  }

  ghost predicate DirectInv(s: State) {
    !s.isOpaque && if s.failed then s.command.issued > MAX_COMMANDS else Answering(s)
  }

  lemma DirectStep(s: State, step: Step)
    requires Inv(s) && DirectInv(s) && Enabled(s, step)
    ensures DirectInv(Next(s, step))
  {
    if !Next(s, step).failed {
      StepKeepsOneCommand(s, step);
    }
  }

  lemma {:induction false} DirectRunKeeps(s: State, steps: seq<Step>)
    requires Inv(s) && DirectInv(s) && Legal(s, steps)
    ensures DirectInv(Exec(s, steps))
    decreases |steps|
  {
    if steps != [] {
      StepKeepsInv(s, steps[0]);
      DirectStep(s, steps[0]);
      DirectRunKeeps(Next(s, steps[0]), steps[1..]);
    }
  }

  /** Writing the memory itself, the page never meets a request or a result it must reject: only too many commands end its session. */
  lemma DirectHostNeverFails(steps: seq<Step>)
    requires Legal(Initial(false), steps)
    ensures Exec(Initial(false), steps).failed ==> Exec(Initial(false), steps).command.issued > MAX_COMMANDS
  {
    InitialHolds(false);
    DirectRunKeeps(Initial(false), steps);
  }
}
