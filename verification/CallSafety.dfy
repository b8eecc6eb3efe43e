/**
 The guest-call service, the outbox, the worker pool and the runner as one
 system. Resource keys are random tokens; the model takes each new key as fresh.
 */
module CallSafety {
  import opened GuestCalls
  import opened MaintenanceRunner
  import opened RevocationOutbox
  import opened RevocationPool
  import opened RevocationSafety
  import opened Wrappers

  datatype System = System(app: App, rooms: Rooms, issued: set<string>)

  datatype Action =
    | AppAction(step: Step)
    | ServiceAction(op: ServiceOp, now: int, limit: nat)
    | LessonRevoked(meetingKey: string, now: int)

  /** The key a service operation gives to a new call. */
  function NewKey(op: ServiceOp): Option<string> {
    match op
    case CreateRoom(_, _, key) => key
    case AddCall(_, key) => Some(key)
    case _ => None
  }

  ghost predicate CanAct(s: System, action: Action) {
    match action
    case AppAction(step) => CanStep(s.app, step) && !(step.PoolStep? && step.op.Enqueue?)
    case ServiceAction(op, now, _) =>
      && CanServe(s.rooms, op, now)
      && (NewKey(op).Some? ==> |NewKey(op).value| == KEY_LENGTH && NewKey(op).value !in s.issued)
    case LessonRevoked(meetingKey, _) => PlainMeetingKey(meetingKey)
  }

  /** The enqueues of one transaction. */
  ghost function EnqueueAll(app: App, names: seq<RoomName>, now: int): App
    decreases |names|
  {
    if names == [] then app else EnqueueAll(Next(app, PoolStep(Enqueue(names[0], now))), names[1..], now)
  }

  ghost function Act(s: System, action: Action): System
    requires CanAct(s, action)
  {
    match action
    case AppAction(step) => s.(app := Next(s.app, step))
    case ServiceAction(op, now, limit) =>
      var served := Serve(s.rooms, op, now, limit);
      System(EnqueueAll(s.app, served.1, now), served.0,
             s.issued + (if NewKey(op).Some? then {NewKey(op).value} else {}))
    case LessonRevoked(meetingKey, now) => s.(app := EnqueueAll(s.app, [LessonRoomName(meetingKey)], now))
  }

  /** Every stored call has an issued fixed-length key of its own. */
  ghost predicate KeysOk(rooms: Rooms, issued: set<string>) {
    && (forall id | id in rooms && rooms[id].call.Some? ::
          rooms[id].call.value.key in issued && |rooms[id].call.value.key| == KEY_LENGTH)
    && (forall i, j | i in rooms && j in rooms && i != j && rooms[i].call.Some? && rooms[j].call.Some? ::
          rooms[i].call.value.key != rooms[j].call.value.key)
  }

  /** The name is of no generation that a stored or future call has now or may still get. */
  ghost predicate Retired(rooms: Rooms, issued: set<string>, name: RoomName) {
    && (forall id, g: Generation | id in rooms && rooms[id].call.Some? && g >= rooms[id].call.value.generation ::
          name != GuestCallRoomName(rooms[id].call.value.key, g))
    && (forall key, g: Generation | |key| == KEY_LENGTH && key !in issued :: name != GuestCallRoomName(key, g))
  }

  ghost predicate Known(log: seq<Event>, name: RoomName) {
    Enqueued(name) in log
  }

  /** Everything the pool holds was enqueued at some point of the run. */
  ghost predicate PoolNames(p: Pool) {
    && (forall n | n in p.rows :: Known(p.log, n))
    && (forall b, i | b in p.batches && 0 <= i < |p.batches[b].selected| :: Known(p.log, p.batches[b].selected[i].name))
  }

  /** Everything the pool knows is retired. */
  ghost predicate NamesInv(s: System) {
    && KeysOk(s.rooms, s.issued)
    && PoolNames(s.app.pool)
    && (forall n | Known(s.app.pool.log, n) :: Retired(s.rooms, s.issued, n))
  }

  lemma PoolStepKeepsNames(p: Pool, op: Op)
    requires PoolNames(p) && Enabled(p, op)
    ensures PoolNames(Apply(p, op))
    ensures forall n :: Known(Apply(p, op).log, n) <==> Known(p.log, n) || (op.Enqueue? && op.name == n)
  {
    var q := Apply(p, op);
    assert q.log == p.log + [q.log[|p.log|]];
  }

  lemma BeginKeepsNames(a: App, r: nat, begin: Begin, snapshot: nat, first: Option<nat>, number: nat)
    requires r < |a.runs| && CanBegin(a.pool, begin) && PoolNames(a.pool)
    ensures var b := BeginBatch(a, r, begin, snapshot, first, number);
      PoolNames(b.pool) && forall n :: Known(b.pool.log, n) <==> Known(a.pool.log, n)
  {
  }

  lemma LoopHeadKeepsNames(a: App, r: nat, begin: Begin)
    requires r < |a.runs| && CanBegin(a.pool, begin) && PoolNames(a.pool)
    ensures var b := LoopHead(a, r, begin);
      PoolNames(b.pool) && forall n :: Known(b.pool.log, n) <==> Known(a.pool.log, n)
  {
  }

  lemma CallerLoopKeepsNames(a: App, c: nat, caller: Caller, begin: Begin)
    requires CanBegin(a.pool, begin) && PoolNames(a.pool)
    ensures var b := CallerLoop(a, c, caller, begin);
      PoolNames(b.pool) && forall n :: Known(b.pool.log, n) <==> Known(a.pool.log, n)
  {
    if !a.stopped && a.current.None? {
      LoopHeadKeepsNames(a.(current := Some(|a.runs|), runs := a.runs + [Exited(false)]), |a.runs|, begin);
    }
  }

  lemma AppStepKeepsNames(a: App, step: Step)
    requires CanStep(a, step) && PoolNames(a.pool)
    ensures PoolNames(Next(a, step).pool)
    ensures forall n ::
      Known(Next(a, step).pool.log, n) <==> Known(a.pool.log, n) || (step.PoolStep? && step.op.Enqueue? && step.op.name == n)
  {
    match step
    case PoolStep(op) => PoolStepKeepsNames(a.pool, op);
    case Request(c, begin) =>
      if !a.stopped {
        CallerLoopKeepsNames(Registered(a, c), c, Registered(a, c).callers[c], begin);
      }
    case ResumeCaller(c, begin) => CallerLoopKeepsNames(a, c, a.callers[c], begin);
    case CloseBatch(r) => PoolStepKeepsNames(a.pool, FinishBatch(a.runs[r].batch));
    case RowWriteThrows(r, w) => PoolStepKeepsNames(a.pool, ThrowRow(a.runs[r].batch, w));
    case ResumeRun(r, begin) =>
      var Resuming(snapshot, first, number, selected) := a.runs[r];
      if selected < BATCH_SIZE || number + 1 >= MAX_BATCHES_PER_RUN {
        LoopHeadKeepsNames(a.(completed := snapshot, servedBy := first), r, begin);
      } else {
        BeginKeepsNames(a, r, begin, snapshot, Some(first), number + 1);
      }
    case _ =>
  }

  lemma {:induction false} EnqueueAllKeepsNames(app: App, names: seq<RoomName>, now: int)
    requires PoolNames(app.pool)
    ensures PoolNames(EnqueueAll(app, names, now).pool)
    ensures forall n :: Known(EnqueueAll(app, names, now).pool.log, n) <==> Known(app.pool.log, n) || n in names
    ensures EnqueueAll(app, names, now).pool.rows == AfterEnqueues(app.pool.rows, names, now)
    decreases |names|
  {
    if names != [] {
      var step := PoolStep(Enqueue(names[0], now));
      AppStepKeepsNames(app, step);
      EnqueueAllKeepsNames(Next(app, step), names[1..], now);
    }
  }

  lemma {:induction false} EnqueueAllKeepsApp(app: App, names: seq<RoomName>, now: int)
    requires AppInv(app)
    ensures AppInv(EnqueueAll(app, names, now))
    decreases |names|
  {
    if names != [] {
      var step := PoolStep(Enqueue(names[0], now));
      StepKeepsApp(app, step);
      EnqueueAllKeepsApp(Next(app, step), names[1..], now);
    }
  }

  // ----- generations only grow

  /** Stored calls keep their key and never lower their generation; new calls have unissued keys. */
  ghost predicate Evolves(rooms: Rooms, issued: set<string>, next: Rooms, issued': set<string>) {
    && issued <= issued'
    && (forall id | id in next && next[id].call.Some? ::
          if id in rooms && rooms[id].call.Some?
          then next[id].call.value.key == rooms[id].call.value.key
               && next[id].call.value.generation >= rooms[id].call.value.generation
          else next[id].call.value.key in issued' - issued && |next[id].call.value.key| == KEY_LENGTH)
  }

  lemma RetiredStays(rooms: Rooms, issued: set<string>, next: Rooms, issued': set<string>, name: RoomName)
    requires Evolves(rooms, issued, next, issued') && Retired(rooms, issued, name)
    ensures Retired(next, issued', name)
  {
  }

  /** Once no stored call can reach its generation again, a guest name is retired. */
  lemma GuestNameRetires(rooms: Rooms, issued: set<string>, key: string, generation: Generation)
    requires KeysOk(rooms, issued) && key in issued && |key| == KEY_LENGTH
    requires forall id | id in rooms && rooms[id].call.Some? && rooms[id].call.value.key == key ::
      generation < rooms[id].call.value.generation
    ensures Retired(rooms, issued, GuestCallRoomName(key, generation))
  {
    var name := GuestCallRoomName(key, generation);
    forall key', g: Generation | |key'| == KEY_LENGTH && name == GuestCallRoomName(key', g)
      ensures key' == key && g == generation
    {
      RoomNameInjective(key, generation, key', g);
    }
  }

  lemma {:induction false} ReleaseRetires(rooms: Rooms, issued: set<string>, ids: seq<RoomId>, now: int)
    requires KeysOk(rooms, issued)
    ensures var (next, names) := AfterRelease(rooms, ids, now);
      && KeysOk(next, issued) && Evolves(rooms, issued, next, issued)
      && forall n | n in names :: Retired(next, issued, n)
    decreases |ids|
  {
    if ids != [] {
      var one := AfterReleaseOne(rooms, ids[0], now);
      ReleaseRetires(one, issued, ids[1..], now);
      if Releasable(rooms, ids[0], now) {
        var call := rooms[ids[0]].call.value;
        GuestNameRetires(one, issued, call.key, call.generation);
        RetiredStays(one, issued, AfterRelease(one, ids[1..], now).0, issued, CurrentName(rooms[ids[0]]));
      }
    }
  }

  lemma {:induction false} DeleteRetires(rooms: Rooms, issued: set<string>, ids: seq<RoomId>)
    requires KeysOk(rooms, issued)
    ensures var (next, names) := AfterDeleteRooms(rooms, ids);
      && KeysOk(next, issued) && Evolves(rooms, issued, next, issued)
      && forall n | n in names :: Retired(next, issued, n)
    decreases |ids|
  {
    if ids != [] {
      var one := rooms - {ids[0]};
      DeleteRetires(one, issued, ids[1..]);
      if ids[0] in rooms && rooms[ids[0]].call.Some? {
        var call := rooms[ids[0]].call.value;
        GuestNameRetires(one, issued, call.key, call.generation);
        RetiredStays(one, issued, AfterDeleteRooms(one, ids[1..]).0, issued, CurrentName(rooms[ids[0]]));
      }
    }
  }

  /** Storing a room that keeps its call, or whose call is new, is an evolution. */
  lemma PutRoomEvolves(rooms: Rooms, issued: set<string>, id: RoomId, room: Room, issued': set<string>)
    requires KeysOk(rooms, issued) && issued <= issued'
    requires room.call.Some? ==>
      if id in rooms && rooms[id].call.Some?
      then room.call.value.key == rooms[id].call.value.key && room.call.value.generation == rooms[id].call.value.generation
      else room.call.value.key in issued' - issued && |room.call.value.key| == KEY_LENGTH
    ensures KeysOk(rooms[id := room], issued') && Evolves(rooms, issued, rooms[id := room], issued')
  {
  }

  lemma ServeRetires(s: System, action: Action)
    requires NamesInv(s) && action.ServiceAction? && CanAct(s, action)
    ensures var (next, names) := Serve(s.rooms, action.op, action.now, action.limit);
      var issued := Act(s, action).issued;
      && KeysOk(next, issued) && Evolves(s.rooms, s.issued, next, issued)
      && forall n | n in names :: Retired(next, issued, n)
  {
    match action.op
    case Release(ids) => ReleaseRetires(s.rooms, s.issued, ids, action.now);
    case CancelDraft(id) => DeleteRetires(s.rooms, s.issued, [id]);
    case Cleanup(_, ids) => DeleteRetires(s.rooms, s.issued, ids);
    case _ =>
      var (next, names) := Serve(s.rooms, action.op, action.now, action.limit);
      var issued := Act(s, action).issued;
      if action.op.id in next {
        PutRoomEvolves(s.rooms, s.issued, action.op.id, next[action.op.id], issued);
        assert next == s.rooms[action.op.id := next[action.op.id]];
      }
  }

  /** Every action keeps the pool to retired names, throwing row writes included. */
  lemma ActKeepsNames(s: System, action: Action)
    requires NamesInv(s) && CanAct(s, action)
    ensures NamesInv(Act(s, action))
  {
    var t := Act(s, action);
    match action
    case AppAction(step) => AppStepKeepsNames(s.app, step);
    case ServiceAction(op, now, limit) =>
      var (next, names) := Serve(s.rooms, op, now, limit);
      EnqueueAllKeepsNames(s.app, names, now);
      ServeRetires(s, action);
      forall n | Known(t.app.pool.log, n) ensures Retired(t.rooms, t.issued, n) {
        if n !in names {
          RetiredStays(s.rooms, s.issued, t.rooms, t.issued, n);
        }
      }
    case LessonRevoked(meetingKey, now) =>
      var name := LessonRoomName(meetingKey);
      EnqueueAllKeepsNames(s.app, [name], now);
      forall key, g: Generation | |key| == KEY_LENGTH ensures name != GuestCallRoomName(key, g) {
        LessonNamesAreNotGuestNames(meetingKey, key, g);
      }
  }

  lemma ActKeepsApp(s: System, action: Action)
    requires AppInv(s.app) && CanAct(s, action) && !LeavesBehind(s, action)
    ensures AppInv(Act(s, action).app)
  {
    match action
    case AppAction(step) => StepKeepsApp(s.app, step);
    case ServiceAction(op, now, limit) => EnqueueAllKeepsApp(s.app, Serve(s.rooms, op, now, limit).1, now);
    case LessonRevoked(meetingKey, now) => EnqueueAllKeepsApp(s.app, [LessonRoomName(meetingKey)], now);
  }

  /** A row write throws while another worker of its batch is unfinished. */
  ghost predicate LeavesBehind(s: System, action: Action)
    requires CanAct(s, action)
  {
    action.AppAction? && LeavesWorkers(s.app, action.step)
  }

  ghost predicate LegalActions(s: System, actions: seq<Action>)
    decreases |actions|
  {
    actions == [] || (CanAct(s, actions[0]) && LegalActions(Act(s, actions[0]), actions[1..]))
  }

  ghost function AfterActions(s: System, actions: seq<Action>): System
    requires LegalActions(s, actions)
    decreases |actions|
  {
    if actions == [] then s else AfterActions(Act(s, actions[0]), actions[1..])
  }

  ghost predicate NobodyLeftBehind(s: System, actions: seq<Action>)
    requires LegalActions(s, actions)
    decreases |actions|
  {
    actions == [] || (!LeavesBehind(s, actions[0]) && NobodyLeftBehind(Act(s, actions[0]), actions[1..]))
  }

  lemma {:induction false} NamesRun(s: System, actions: seq<Action>)
    requires NamesInv(s) && LegalActions(s, actions)
    ensures NamesInv(AfterActions(s, actions))
    decreases |actions|
  {
    if actions != [] {
      ActKeepsNames(s, actions[0]);
      NamesRun(Act(s, actions[0]), actions[1..]);
    }
  }

  lemma {:induction false} AppRunInSystem(s: System, actions: seq<Action>)
    requires AppInv(s.app) && LegalActions(s, actions) && NobodyLeftBehind(s, actions)
    ensures AppInv(AfterActions(s, actions).app)
    decreases |actions|
  {
    if actions != [] {
      ActKeepsApp(s, actions[0]);
      AppRunInSystem(Act(s, actions[0]), actions[1..]);
    }
  }

  const EMPTY_SYSTEM := System(Start(map[]), map[], {})

  /**
   In every reachable state, failures and throwing row writes included, no outbox row, and
   no row of a batch in flight, names the current room of a stored call.
   */
  lemma CurrentRoomsAreNeverRevoked(actions: seq<Action>)
    requires LegalActions(EMPTY_SYSTEM, actions)
    ensures var s := AfterActions(EMPTY_SYSTEM, actions);
      forall id | id in s.rooms && s.rooms[id].call.Some? ::
        && CurrentName(s.rooms[id]) !in s.app.pool.rows
        && forall b, i | b in s.app.pool.batches && 0 <= i < |s.app.pool.batches[b].selected| ::
             s.app.pool.batches[b].selected[i].name != CurrentName(s.rooms[id])
  {
    NamesRun(EMPTY_SYSTEM, actions);
  }

  /** And no revocation is lost, unless a row write throws beside an unfinished worker. */
  lemma RevocationsAreJustified(actions: seq<Action>)
    requires LegalActions(EMPTY_SYSTEM, actions) && NobodyLeftBehind(EMPTY_SYSTEM, actions)
    ensures Justified(AfterActions(EMPTY_SYSTEM, actions).app.pool.log)
  {
    AppRunInSystem(EMPTY_SYSTEM, actions);
  }
}
