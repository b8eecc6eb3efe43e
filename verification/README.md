# Verified models of the board, call and Python services

Dafny models of the parts of the system whose correctness no single branch decides, with proofs of
what those parts are for. `dafny verify dfyconfig.toml` checks the whole project.

**Call-room revocation** (`RevocationOutbox`, `RevocationPool`, `RevocationSafety`, `MaintenanceRunner`,
`RowWriteErrors`, `GuestCalls`, `CallSafety`). The durable outbox of rooms to delete, the four workers that
serve a batch of it, the single-flight runner that starts batches, and the guest-room service that retires
call rooms. Pool, runner and callers are state machines over their interleaved steps; outbox and service are
classes whose methods are proved against functions of the old rows. The last module puts them together.

**Ingress accounting** (`IngressScopes`, `SocketAdmission`, `AuthRateLimit`, `PacketSize`). Fixed-window
buckets, bounded maps of scopes, admission counters, the stored counters of login attempts, and the
stack loop that measures a packet without writing its JSON text.

**Z-order and fragments** (`ZRank`, `Reordering`, `ZOrder`, `FragmentInsert`, `FragmentCodec`). Objects
sorted by fractional rank and id, the four ways to reorder a selection while rewriting only its ranks,
and copying and pasting on such a page. A rank library is any function that meets the law `Lawful`;
`ZRank` also gives one.

**Codecs** (`Leb128`, `BoardFrames`, `BoardRoundTrip`, `FrameLayout`, `TextFields`, `BoardCodec`, `Chunks`,
`Reassembly`, `Strokes`, `UpdateMerge`, `Containers`, `RecoveryBundle`). Board protocol frames, stroke data,
coalesced updates, recovery files. `BoardFrames` and `Leb128` say what a frame is on the wire, `BoardRoundTrip`
proves the laws, `FrameLayout` tells the bytes themselves, golden frames included, `TextFields` carries the laws
to strings of code units, and `BoardCodec` ties the encoder buffer and the moving decoder to them. `Chunks` and `Reassembly` cut large frames up and put them together again,
whatever the order of arrival.

**Geometry** (`LineGeometry`, `PointLines`, `PathBox`). Quadratic board lines, and smooth lines through
anchors, over the reals.

**Python workers** (`TerminalOutput`, `WorkspaceDelta`, `StdinHandshake`, `OpaqueHost`, `Sha256`,
`Sha256Constants`, `Sha256Words`, `Sha256Vector`). Truncated output, workspace deltas and their check by the
host, interactive input through shared memory, and the fallback SHA-256 against sections 5.1.1 and 6.2.2 of
FIPS 180-4. `Sha256Constants` says what its constants and functions are, `Sha256Words` takes words to bit
vectors, and `Sha256Vector` computes a published digest with them.

`Wrappers`, `CodeUnits`, `Utf8Text`, `Numbers` and `RealNumbers` hold shared types and small facts.

## Where the code does less than one would expect

Each is proved: a concrete run or input, and beside it an exact condition.

- A row re-created after its acknowledgement restarts at generation 1 (`src/server/livekit-revocation.ts:47`).
  A revocation can be lost exactly when that happens while a batch in flight still carries the name
  (`RevocationIsLostIff`, `OverlappingBatchesLoseARevocation`). One batch at a time prevents it
  (`NoLostRevocation`). The runner keeps to that, unless a row write throws while another worker of
  its batch is unfinished (`ThrowOverlapsIff`, `ThrowLosesARevocation`).
- A presence report may refresh a call whose lease has lapsed, and pass the limit on calls
  (`LapsedRefreshExceedsLimit`, `PresenceKeepsLimitIff`, `CapacityBound`).
- The board decoder drops a byte order mark at the start of a text field, which the encoder writes
  (`MarkIsLost`, `DecodeUndoesEncode`, `EncodeUndoesDecode`); the worker does so with a line of input (`LineArrivesIff`).
- A text field with a lone surrogate passes every check and arrives changed (`SurrogateIsLost`, `TextFieldArrivesIff`).
- The checks of a chunk accept payloads that no other chunks can complete (`AcceptedButUnfinishable`, `PieceOfSplitIff`);
  a sender makes none (`SentChunksAreSplit`).
- "Backward" undoes "forward" only if the top object is unselected or everything is selected
  (`ForwardThenBackwardSwaps`, `BackwardUndoesForward`).
- The one-shot runner loses the line break before its truncation marker when a piece of output ends exactly
  at the limit (`LineBreakIsLost`, `RunnerOutputOf`).
- A workspace delta does not carry a change of spelling alone (`RespellingIsLost`, `DeltaReproducesResult`).
- Through the opaque host an interrupt can end the session: by overtaking a request for input
  (`InterruptOvertakesRequest`), or by being overtaken by the result of its command (`ResultOvertakesInterrupt`).
  It can exactly when the page shows no request as it is sent (`InterruptCanFailIff`).
- The box of a line through several anchors is the box of samples, and the line leaves it exactly when a
  coordinate turns back outside (`PathCanLeaveBox`, `PathInBoxIff`), by a bounded distance (`PathStaysNearBox`).

## Model

| member | source | states |
|---|---|---|
| `RevocationOutbox.RetryDelayGrows` | src/server/livekit-revocation.ts:79-85 | The back-off never shrinks with the number of attempts, stays between its base and its cap, and sits at the cap exactly from the eighth attempt on |
| `RevocationOutbox.RetryDelays` | src/server/livekit-revocation.ts:79-85 | The delays one by one: five seconds, doubled by every failure, and a quarter of an hour from the ninth on |
| `RevocationOutbox.FailuresBackOff` | src/server/livekit-revocation.ts:119-157 | Each failure in a row raises the attempts by one, up to thirty, so the next attempt waits for the delay of all those before it; generation and enqueue time stay |
| `RevocationOutbox.EnqueuedIsDue` | src/server/livekit-revocation.ts:37-59 | An enqueued name is due from that moment on and not before, with no failures, one generation up, and no other row changes |
| `RevocationOutbox.Outbox.constructor` | src/server/livekit-revocation.ts:37-59 | The outbox starts empty |
| `RevocationOutbox.Outbox.Enqueue` | src/server/livekit-revocation.ts:37-59 | A valid trimmed name gets a row at generation 1, or its row one generation up, due at once and with no attempts; an invalid name changes nothing |
| `RevocationOutbox.Outbox.SettleRow` | src/server/livekit-revocation.ts:119-157 | A deleted or missing room removes the row only if its generation is still the selected one; a failure defers that same row; the two counts say whether a row was touched |
| `RevocationPool.FinishedBatchAccounts` | src/server/livekit-revocation.ts:159-179 | When a batch returns, every selected row has been settled exactly once, and acknowledged plus deferred is at most the number selected |
| `RevocationPool.StepKeepsInv` | src/server/livekit-revocation.ts:111-179 | Every interleaved step of enqueues, workers, calls, settlements and throwing row writes keeps the books of any number of overlapping batches: a row taken is settled once or held by one worker, and the call and the answer a worker holds are in the log |
| `RevocationSafety.StepKeepsGuards` | src/server/livekit-revocation.ts:111-179 | Every step but an enqueue that re-creates a name still carried by a batch in flight keeps every acknowledgement justified, batches overlapping freely |
| `RevocationSafety.HarmlessRunsLoseNothing` | src/server/livekit-revocation.ts:37-179 | Over every run without such an enqueue, each acknowledged row was preceded by a delete call for its name that started after every earlier enqueue of that name and answered deleted or not found |
| `RevocationSafety.HarmfulLoses` | src/server/livekit-revocation.ts:47 | From every reachable state in which an enqueue re-creates such a name, workers of the batch can run on to an acknowledgement that no call justifies |
| `RevocationSafety.RevocationIsLostIff` | src/server/livekit-revocation.ts:37-179 | The exact condition: after a harmless run, a revocation can be lost after an enqueue if and only if the name is not in the outbox while an unsettled row of a batch in flight carries it |
| `RevocationSafety.StepKeepsSafe` | src/server/livekit-revocation.ts:111-179 | Every interleaved step keeps the safety invariant of one batch at a time, given that a batch is selected only when no other can do anything |
| `RevocationSafety.RowsLeaveByAcknowledgement` | src/server/livekit-revocation.ts:130-139 | A name leaves the outbox only in the step that acknowledges it |
| `RevocationSafety.NoLostRevocation` | src/server/livekit-revocation.ts:37-179 | With one batch at a time no enqueue is harmful, so over every such run no revocation is lost |
| `RevocationSafety.RemovedRowWasDeleted` | src/server/livekit-revocation.ts:111-179 | The same about the step itself: a name that vanishes from the outbox was acknowledged for such a call |
| `RevocationSafety.OverlappingBatchesLoseARevocation` | src/server/livekit-revocation.ts:47 | A run of two batches that does it: a row re-created after an acknowledgement restarts at generation 1, and the other batch removes it unserved |
| `MaintenanceRunner.NoLostWakeup` | src/server/app.ts:222-263 | In every run, failures included, a request that returns without a stop was served by a batch whose selection began after the request, and no caller awaits more than two runs |
| `MaintenanceRunner.StepKeepsApp` | src/server/app.ts:222-263 | Every step of callers, runner loop, finally clause, stop, worker pool and throwing row writes keeps the joint invariant, among it that at most one batch can do anything, unless a throw leaves another worker of its batch unfinished |
| `MaintenanceRunner.ApplicationNeverLosesARevocation` | src/server/app.ts:226-250 | In every run of the application in which no row write throws beside an unfinished worker, at most one batch can do anything and every acknowledgement is justified |
| `MaintenanceRunner.WaitingCallersProgress` | src/server/app.ts:251-262 | In every reachable state, whatever has failed, a waiting caller can resume or the run it waits for has an enabled step |
| `RowWriteErrors.ThrowOverlapsIff` | src/server/app.ts:236-247 | In every state reached without such a throw: after a row write throws, the next selection can overlap a batch that still does something if and only if another worker of the batch is unfinished and the application has not stopped |
| `RowWriteErrors.ThrowLosesARevocation` | src/server/livekit-revocation.ts:130-157 | A run of the application: one row write throws while another worker waits for its answer, the next run overlaps, and an acknowledgement ends up unjustified |
| `GuestCalls.DecimalInjective` | src/server/guestRooms.ts:43-51 | Generations with the same decimal digits are the same |
| `GuestCalls.DecimalIsDecimal` | src/server/guestRooms.ts:43-51 | The digits of a generation are decimal digits that stand for it, without a leading zero |
| `GuestCalls.RoomNameInjective` | src/server/guestRooms.ts:43-51 | On keys of the fixed length, the room name determines the key and the generation |
| `GuestCalls.RoomNameNeedsFixedLength` | src/server/guestRooms.ts:43-51 | Without the fixed length two different calls share a room name |
| `GuestCalls.LessonNamesAreNotGuestNames` | src/server/livekit-revocation.ts:61-71 | A lesson and a guest call share a room name exactly when the meeting key is the rest of the guest name; for keys of the fixed length, no meeting key that is too short or does not start with guest- is |
| `GuestCalls.GuestNamesAreAccepted` | src/server/livekit-revocation.ts:29-35 | Every guest call name passes the outbox name check unchanged |
| `GuestCalls.RetryHintIsExact` | src/server/guestRooms.ts:858-902 | With no other step, some counted call has dropped out after the hinted time, and above the floor of one second none drops out earlier |
| `GuestCalls.GuestRoomService.CallCapacityRetryAfterMs` | src/server/guestRooms.ts:858-902 | The hint is the time until the first counted call lapses, at least a second |
| `GuestCalls.GuestRoomService.ActivateCall` | src/server/guestRooms.ts:423-481 | The answer and the new rooms for every case: missing, expired, already active, reserved, or refused with an exact retry hint |
| `GuestCalls.GuestRoomService.RecordCallPresence` | src/server/guestRooms.ts:607-614 | Presence refreshes the call of a room that is active or within its two minutes of grace, and nothing else |
| `GuestCalls.PresenceLasts` | src/server/guestRooms.ts:607-614 | A recorded presence keeps the room 48 hours from expiring empty and two minutes more from expiring at all, and its call counted and unreleased for a quarter of an hour, each to the millisecond |
| `GuestCalls.PresenceUntilExpired` | src/server/guestRooms.ts:607-614 | A presence is recorded exactly as long as the room has not expired without a confirmation that it is empty |
| `GuestCalls.ReservationLasts` | src/server/guestRooms.ts:423-481 | A reservation counts for a quarter of an hour and does not extend the room |
| `GuestCalls.GuestRoomService.ReleaseExpiredCallActivations` | src/server/guestRooms.ts:510-567 | Each still lapsed call moves to its next generation, and exactly the names given up are enqueued for revocation |
| `GuestCalls.GuestRoomService.DeleteRoomContent` | src/server/guestRooms.ts:904-930 | The call of the room is enqueued under its current name, and the room goes |
| `GuestCalls.GuestRoomService.DeleteRooms` | src/server/guestRooms.ts:616-704 | Exactly the listed rooms go, and exactly their calls are enqueued for revocation |
| `GuestCalls.StepCounts` | src/server/guestRooms.ts:803-830 | One operation adds a counted call only by reserving a free slot or by refreshing a lapsed lease |
| `GuestCalls.CapacityBound` | src/server/guestRooms.ts:737-774 | In every run the counted calls exceed the limit by at most the number of presence reports that refreshed a lapsed lease |
| `GuestCalls.CapacityHolds` | src/server/guestRooms.ts:803-830 | Counted calls never exceed the limit in a run whose presence reports refresh only unlapsed leases |
| `GuestCalls.PresenceKeepsLimitIff` | src/server/guestRooms.ts:607-614 | A presence report keeps the limit exactly when the call was counted already or a slot was free |
| `GuestCalls.LapsedRefreshExceedsLimit` | src/server/guestRooms.ts:607-614 | A run of five operations with a limit of one that ends with two counted calls |
| `CallSafety.ReleaseRetires` | src/server/guestRooms.ts:510-567 | A released name can never again be the current name of a stored call |
| `CallSafety.DeleteRetires` | src/server/guestRooms.ts:904-930 | Neither can the name of a deleted call |
| `CallSafety.ActKeepsNames` | src/server/guestRooms.ts:423-567 | Every action of the room service, the outbox, the worker pool and the runner, throwing row writes included, keeps the pool to retired names |
| `CallSafety.ActKeepsApp` | src/server/guestRooms.ts:423-567 | Every action but a throw beside an unfinished worker keeps the invariant of the application |
| `CallSafety.CurrentRoomsAreNeverRevoked` | src/server/guestRooms.ts:423-930 | In every reachable state, whatever has failed, no outbox row and no selected row of a batch in flight names the current room of a stored call |
| `CallSafety.RevocationsAreJustified` | src/server/livekit-revocation.ts:111-179 | In every run of the system in which no row write throws beside an unfinished worker, every acknowledgement is justified |
| `IngressScopes.TrafficBucket.Consume` | src/server/socketAbuse.ts:59-74 | The charge and the decision, including a window that starts again when it has lapsed or the clock went back |
| `IngressScopes.BoundedTrafficScopes.Sweep` | src/server/socketAbuse.ts:110-118 | A sweep that is due or forced drops exactly the idle scopes |
| `IngressScopes.BoundedTrafficScopes.Consume` | src/server/socketAbuse.ts:89-108 | The sweeps, the refusal of a new scope when the map stays full, and a charge to the one scope named |
| `IngressScopes.EvictionIsInvisible` | src/server/socketAbuse.ts:77-119 | With a monotone clock and an idle time of at least a window, every charge not refused for capacity is decided as by a map that never evicts |
| `IngressScopes.ScopesStayBounded` | src/server/socketAbuse.ts:89-108 | The map never holds more than the maximum number of scopes |
| `IngressScopes.AllowedAtMostTwice` | src/server/socketAbuse.ts:48-119 | In every run, what one scope is allowed in any interval of one window is at most twice its limits, in events and in bytes |
| `IngressScopes.TwiceIsReached` | src/server/socketAbuse.ts:48-75 | The factor two is reached |
| `IngressScopes.DenialExhausts` | src/server/socketAbuse.ts:59-74 | A denied charge leaves no room for another event or for another byte until its window ends; an oversized charge is denied and fills the bytes |
| `IngressScopes.DenialLasts` | src/server/socketAbuse.ts:70-73 | After a denial, and whatever is charged to whom and swept meanwhile, every charge of a byte or more to that scope before the announced time is denied, and announces the same time |
| `IngressScopes.DenialEnds` | src/server/socketAbuse.ts:70-73 | The first charge to that scope from the announced time on is allowed exactly when it fits the limits alone, whatever was swept meanwhile |
| `IngressScopes.RunsAreSound` | src/server/socketAbuse.ts:48-119 | Every run with a clock that does not go back reaches only states of which these hold |
| `SocketAdmission.ReserveKeeps` | src/server/socketAbuse.ts:598-616 | Admitting a connection keeps the counters equal to the number of stored reservations, in all and per address, and within both limits |
| `SocketAdmission.ReleaseKeeps` | src/server/socketAbuse.ts:631-641 | So does releasing one; the counters never reach the values the two clamps guard against |
| `SocketAdmission.SocketAdmissionController.Reserve` | src/server/socketAbuse.ts:589-617 | Admitted exactly when the request holds no reservation, both attempt limits agree, and fewer reservations are stored than allowed in all and from the address; both limits are charged either way |
| `SocketAdmission.SocketAdmissionController.Activate` | src/server/socketAbuse.ts:619-625 | Each reservation is activated at most once |
| `SocketAdmission.SocketAdmissionController.Release` | src/server/socketAbuse.ts:631-641 | The reservation goes and its counters with it; a second release changes nothing |
| `AuthRateLimit.AuthRateLimitStore.Consume` | src/server/authRateLimit.ts:129-192 | The cleaned-up rows, the counted attempt and the answer; invalid policies, missing subjects and clocks change nothing |
| `AuthRateLimit.AuthRateLimitStore.Reset` | src/server/authRateLimit.ts:194-200 | Exactly the row of the subject goes |
| `AuthRateLimit.DenialLastsExactly` | src/server/authRateLimit.ts:148-189 | After a denial, the next attempt that finds room is allowed exactly when the announced time has passed, whatever was cleaned up meanwhile |
| `AuthRateLimit.RemainingIsExact` | src/server/authRateLimit.ts:148-189 | With nothing in between, the next attempt before the announced time is allowed exactly when the answer said that some remain, and leaves one less |
| `AuthRateLimit.FirstAttempt` | src/server/authRateLimit.ts:156-173 | The first attempt of a window is allowed and leaves all but one |
| `AuthRateLimit.CleanupIsInvisible` | src/server/authRateLimit.ts:202-213 | In every run with a clock that does not go back, each attempt that finds room is answered as by counters that are never deleted |
| `AuthRateLimit.AllowedAtMostTwice` | src/server/authRateLimit.ts:129-192 | Without a reset of the subject, any interval of one window lets at most twice the limit through |
| `AuthRateLimit.AttemptsPerQuarterHour` | src/server/authRateLimit.ts:24-29 | For the policies in use: 60 attempts from an address, 30 on an account and 20 with one activation token in any quarter of an hour |
| `AuthRateLimit.RowsStayBounded` | src/server/authRateLimit.ts:152-155 | There are never more rows than allowed |
| `PacketSize.JsonStringBytes` | src/server/socketAbuse.ts:135-153 | The number returned is the UTF-8 length of the quoted JSON string, for every string, with lone surrogates and control characters |
| `PacketSize.ChargeIsJsonLength` | src/server/socketAbuse.ts:155-245 | On every tree of JSON values the charge defined over the tree is the exact UTF-8 length of its JSON text |
| `PacketSize.EscapeExample` | src/server/socketAbuse.ts:135-153 | Each kind of escape in a JSON string, and a surrogate pair that stays as it is |
| `PacketSize.ItemsExample` | src/server/socketAbuse.ts:155-245 | The JSON text of six items, one of each kind of leaf |
| `PacketSize.ObjectExample` | src/server/socketAbuse.ts:155-245 | The JSON text of an object with an array and an empty object in it |
| `PacketSize.BytesAreNullsAndSurcharges` | src/server/socketAbuse.ts:194-212 | Where every node is supported, the charge is that of the tree with null for each leaf JSON does not know, plus its length and 60 for each binary, and 12 for each callback |
| `PacketSize.HeightIsDepth` | src/server/socketAbuse.ts:174-176 | The height stays within a depth exactly when no path through the tree is longer |
| `PacketSize.NodesAreCounted` | src/server/socketAbuse.ts:173-176 | The nodes counted are all values of the tree, and it is supported exactly when none of them is unsupported |
| `PacketSize.ReportedIsCharge` | src/server/socketAbuse.ts:155-245 | A packet is not cut off exactly when it has at most 100000 nodes, none deeper than 64 or unsupported, and its charge is within the cutoff; then 64 plus that charge is reported, else the cutoff plus one |
| `PacketSize.Visit` | src/server/socketAbuse.ts:170-242 | One turn of the stack loop moves the charge of the top value to the counters or rejects a packet that is over a limit; counted nodes and stack together stay within 100000 |
| `PacketSize.BoundedSocketPacketBytes` | src/server/socketAbuse.ts:155-245 | The stack loop terminates with 64, the UTF-8 length of the JSON text with nulls, and the surcharges of all binaries and callbacks; or with the cutoff plus one, exactly when a limit is passed |
| `PacketSize.UncutJsonPacketIsExact` | src/server/socketAbuse.ts:155-245 | A JSON packet that is not cut off is charged 64 bytes plus the exact UTF-8 length of its JSON text |
| `CodeUnits.LessIsTotal` | src/board/core/zOrder.ts:33-40 | Any two strings compare one way, and only one |
| `CodeUnits.LessIsTransitive` | src/board/core/zOrder.ts:33-40 | The order is transitive |
| `ZRank.CompareCodeUnitStrings` | src/board/core/zOrder.ts:33-40 | Negative, zero or positive exactly as the strings are below, equal or above |
| `ZRank.Midpoint` | src/board/core/zOrder.ts:50-55 | A valid rank strictly between any two ranks |
| `ZRank.After` | src/board/core/zOrder.ts:68-70 | A valid rank above any rank |
| `ZRank.DenseRanksFit` | src/board/core/zOrder.ts:57-66 | Any number of ranks, increasing and strictly within any bounds |
| `ZRank.MidpointsAreLawful` | src/board/core/zOrder.ts:50-66 | There is a rank library that meets the law every theorem about ranks relies on |
| `Reordering.MoveForward` | src/board/core/zOrder.ts:166-180 | The in-place pass from the top swaps each selected element with an unselected one right above it |
| `Reordering.MoveBackward` | src/board/core/zOrder.ts:182-193 | The mirrored pass from the bottom |
| `Reordering.ReorderedIds` | src/board/core/zOrder.ts:148-194 | Front and back filter, forward and backward swap: the result of all four |
| `Reordering.RelativeOrdersAreKept` | src/board/core/zOrder.ts:148-194 | In every direction the selected ids keep their order among themselves, and so do the others |
| `Reordering.ReorderedIsPermutation` | src/board/core/zOrder.ts:148-194 | The result has the same ids, each once |
| `Reordering.ForwardLiftsByOne` | src/board/core/zOrder.ts:166-180 | Forward lifts each selected id past exactly one other, or none if there is none above it |
| `Reordering.BackwardLowersByOne` | src/board/core/zOrder.ts:182-193 | Backward lowers each selected id past exactly one other, or none if there is none below it |
| `Reordering.FrontAndBackAreExtreme` | src/board/core/zOrder.ts:153-164 | To the front leaves no other above a selected id, to the back none below |
| `Reordering.OrderIsDetermined` | src/board/core/zOrder.ts:148-194 | The two relative orders and the heights of the selected ids determine the whole order, so the laws above leave no other result |
| `Reordering.BackwardUndoesForward` | src/board/core/zOrder.ts:166-193 | Backward undoes forward if and only if the top id is unselected or every id is selected |
| `Reordering.ForwardThenBackwardSwaps` | src/board/core/zOrder.ts:166-193 | Two objects of which the upper is selected: the two passes end with the objects swapped |
| `ZOrder.OrderIsUnique` | src/board/core/zOrder.ts:42-48 | A page has only one order by rank and id |
| `ZOrder.HasDuplicateRanks` | src/board/core/zOrder.ts:111-118 | True exactly when two objects share a rank |
| `ZOrder.NormalRanks` | src/board/core/zOrder.ts:120-142 | Afterwards all ranks are valid and distinct and the order is the same; ranks that were good are left alone |
| `ZOrder.RankRuns` | src/board/core/zOrder.ts:240-263 | The run loop gives every selected object a new rank and none to the others, and the ranks read along the target increase |
| `ZOrder.PlacedIsOrder` | src/board/core/zOrder.ts:240-272 | Once that holds, sorting by rank and id gives exactly the target order, and no unselected object has changed |
| `ZOrder.ReorderedRanks` | src/board/core/zOrder.ts:204-274 | Normalizing and then ranking the selected objects makes the reordered ids the order of the page |
| `ZOrder.BoardPage.NormalizeObjectZRanks` | src/board/core/zOrder.ts:120-142 | The page in place: same order, good ranks, and true exactly when they were not good before |
| `ZOrder.BoardPage.ReorderObjects` | src/board/core/zOrder.ts:204-274 | The page in place: a refused request changes nothing; otherwise the order is the reordered one, only ranks differ, unselected ranks are those of the normalized page, ranks are valid and distinct, and true means the order changed |
| `FragmentInsert.ValidateObjectIds` | src/board/core/fragments.ts:201-226 | Accepted exactly when there are not too many ids, all are UUIDs and none is repeated |
| `FragmentInsert.MaterializeBoardFragment` | src/board/core/fragments.ts:370-458 | Accepted exactly when the listed ids are all the objects, each readable, in their z-order |
| `FragmentInsert.CreateBoardFragment` | src/board/core/fragments.ts:614-665 | The copied objects unchanged, listed in the order of the page; the result always materializes |
| `FragmentInsert.TargetRankPlan` | src/board/core/fragments.ts:538-573 | The lower bound computed before the page is touched is the top rank of the page as normalization will leave it |
| `FragmentInsert.GenerateTargetIds` | src/board/core/fragments.ts:882-903 | Accepted exactly when all generated ids are UUIDs, distinct, and new to the fragment and the page |
| `FragmentInsert.CalculateBounds` | src/board/core/fragments.ts:472-500 | The least box that contains every object |
| `FragmentInsert.BoxIsBetweenCorners` | src/board/core/fragments.ts:472-500 | The box of an object lies between its two corners whatever the signs of its size, and its center is the middle of both |
| `FragmentInsert.TranslatedBounds` | src/board/core/fragments.ts:520-536 | Translating all objects translates the center of their box |
| `FragmentInsert.PastedFields` | src/board/core/fragments.ts:520-536 | Width, height, rotation and content of every pasted object are those of its source, and all of them lie one and the same vector away from their sources |
| `FragmentInsert.PlacedIsAnchored` | src/board/core/fragments.ts:472-536 | An anchor is in the middle of the least rectangle around the pasted objects, and of the object where there is only one |
| `FragmentInsert.PasteRecords` | src/board/core/fragments.ts:910-929 | Each record is a copy with its new id and rank, x and y moved by the vector, width, height and rotation as they were, its parent pasted or null |
| `FragmentInsert.AddedOnTop` | src/board/core/fragments.ts:905-942 | Records with ranks above the page come after all its objects, in their own order |
| `FragmentInsert.InsertBoardFragment` | src/board/core/fragments.ts:850-944 | Accepted exactly on a well-formed fragment with fresh ids and no conflicting placement; then the order of the page is its old order followed by the pasted objects, which are translated copies with their anchor at the center; a refusal changes nothing |
| `FragmentCodec.WriteFile` | src/board/core/fragments.ts:698-708 | Magic text, length, header and update written at running offsets fill the buffer without gap or overlap |
| `FragmentCodec.MagicIsText` | src/board/core/fragments.ts:29-31 | The magic text letter by letter |
| `FragmentCodec.EncodeBoardFragment` | src/board/core/fragments.ts:667-709 | Encoding is refused only for a fragment that does not materialize or a header over its limit; the size check after it never fires |
| `FragmentCodec.DecodeBoardFragment` | src/board/core/fragments.ts:711-787 | The decoding characterized by DecodeIff |
| `FragmentCodec.DecodeIff` | src/board/core/fragments.ts:711-787 | A file decodes as a fragment exactly when the fragment materializes and the file is its magic text, length, a text of its header, and its update, with nothing else |
| `FragmentCodec.DecodeUndoesEncode` | src/board/core/fragments.ts:667-787 | Every encoded fragment decodes to itself |
| `FragmentCodec.EncodeUndoesDecode` | src/board/core/fragments.ts:667-787 | A decoded file is encoded again as itself if and only if its header text is the one the encoder writes |
| `Leb128.LebIsShort` | src/board/protocol/codec.ts:504-512 | A number below 128 to the k takes at most k bytes |
| `Leb128.DigitsOfLeb` | src/board/protocol/codec.ts:514-548 | Reading the canonical form gives the number back and stops right after it |
| `Leb128.DigitsAreLeb` | src/board/protocol/codec.ts:527-543 | Digits as many as the canonical form has are the canonical form |
| `Leb128.ReadPutVar` | src/board/protocol/codec.ts:514-548 | Every number in range is read back |
| `Leb128.PutReadVar` | src/board/protocol/codec.ts:514-548 | The length check admits exactly canonical numbers: what is read is what would be written |
| `BoardRoundTrip.EncodeThenRead` | src/board/protocol/codec.ts:426-475 | Every frame that encodes is read back from the wire exactly as it was, for all nine frame types |
| `BoardRoundTrip.ReadThenEncode` | src/board/protocol/codec.ts:843-928 | Every accepted byte sequence is the encoding of the frame on the wire |
| `BoardRoundTrip.CheckedFramesFit` | src/board/protocol/codec.ts:467-474 | A frame that passes its field checks always encodes: the frame size check never fires |
| `BoardRoundTrip.DecodeStripsWire` | src/board/protocol/codec.ts:574-589 | Decoding differs from reading the wire exactly by the byte order mark dropped at the start of the text field |
| `BoardRoundTrip.DecodeUndoesEncode` | src/board/protocol/codec.ts:426-475 | decode(encode(f)) = f for a checked frame if and only if its text field does not start with a byte order mark |
| `BoardRoundTrip.EncodeUndoesDecode` | src/board/protocol/codec.ts:843-928 | encode(decode(b)) = b for an accepted b if and only if its text field on the wire does not start with a byte order mark |
| `BoardRoundTrip.MarkIsLost` | src/board/protocol/codec.ts:574-589 | A document key that is a byte order mark passes every check and comes back empty |
| `FrameLayout.LebIsBase128` | src/board/protocol/codec.ts:142-148 | The bytes of a number hold its groups of seven bits, the least first, the top bit set in all but the last |
| `FrameLayout.AuthLayout` | src/board/protocol/codec.ts:190-222 | The bytes of every AUTH frame, field by field |
| `FrameLayout.ReadyLayout` | src/board/protocol/codec.ts:224-250 | The bytes of every READY frame, field by field |
| `FrameLayout.SyncLayout` | src/board/protocol/codec.ts:252-278 | The bytes of every SYNC_STEP1 and SYNC_STEP2 frame, field by field |
| `FrameLayout.UpdateLayout` | src/board/protocol/codec.ts:280-290 | The bytes of every UPDATE frame, field by field |
| `FrameLayout.AckLayout` | src/board/protocol/codec.ts:292-303 | The bytes of every ACK frame, field by field |
| `FrameLayout.AwarenessLayout` | src/board/protocol/codec.ts:305-323 | The bytes of every AWARENESS frame, field by field |
| `FrameLayout.ControlLayout` | src/board/protocol/codec.ts:325-360 | The bytes of every CONTROL frame, field by field, with the flags 0, 1, 2 and 3 for neither, a document key, a message id and both |
| `FrameLayout.ChunkLayout` | src/board/protocol/codec.ts:413-424 | The bytes of every CHUNK frame, field by field |
| `FrameLayout.FrameStarts` | src/board/protocol/codec.ts:426-475 | Every encoded frame starts with 45 44 42 32, the version 1, and the type byte of its kind |
| `FrameLayout.ControlFlagBits` | src/board/protocol/codec.ts:343-352 | Bit 0 of the flags says whether a control frame has a document key, bit 1 whether it has a message id |
| `FrameLayout.AcceptedBytes` | src/board/protocol/codec.ts:843-928 | Every accepted byte sequence starts so, its type byte tells the kind of the decoded frame, and the bits of its flags tell the optional fields |
| `FrameLayout.FirstFrames` | src/board/protocol/codec.ts:190-250 | An AUTH or READY frame passes its checks exactly when each field is in its range |
| `FrameLayout.DocumentFrames` | src/board/protocol/codec.ts:252-323 | The same of the five kinds of frames that name a document |
| `FrameLayout.LastFrames` | src/board/protocol/codec.ts:325-424 | The same of CONTROL and CHUNK frames |
| `FrameLayout.GoldenAuth` | src/board/protocol/fixtures/v1.json:29-33 | The golden AUTH frame encodes to its bytes, and they decode to it |
| `FrameLayout.GoldenReady` | src/board/protocol/fixtures/v1.json:34-38 | The golden READY frame, both ways |
| `FrameLayout.GoldenSyncStep1` | src/board/protocol/fixtures/v1.json:39-43 | The golden SYNC_STEP1 frame, both ways |
| `FrameLayout.GoldenSyncStep2` | src/board/protocol/fixtures/v1.json:44-48 | The golden SYNC_STEP2 frame, both ways |
| `FrameLayout.GoldenUpdate` | src/board/protocol/fixtures/v1.json:49-53 | The golden UPDATE frame, both ways |
| `FrameLayout.GoldenAck` | src/board/protocol/fixtures/v1.json:54-58 | The golden ACK frame, both ways |
| `FrameLayout.GoldenAwareness` | src/board/protocol/fixtures/v1.json:59-63 | The golden AWARENESS frame, both ways |
| `FrameLayout.GoldenProfileUpdate` | src/board/protocol/fixtures/v1.json:64-68 | The golden PROFILE_UPDATE frame, a control frame with a message id alone, both ways |
| `FrameLayout.GoldenControl` | src/board/protocol/fixtures/v1.json:79-83 | The golden CONTROL frame, with a document key and a message id, both ways |
| `FrameLayout.OtherControls` | src/board/protocol/codec.ts:325-360 | A control frame with a document key alone and one with neither, both ways |
| `FrameLayout.GoldenChunk` | src/board/protocol/fixtures/v1.json:84-88 | The golden CHUNK frame, both ways |
| `TextFields.DecodeUndoesEncodeText` | src/board/protocol/codec.ts:107-121 | A string encoded as UTF-8 and decoded again is the string with each lone surrogate replaced |
| `TextFields.EncodeUndoesDecodeText` | src/board/protocol/codec.ts:574-589 | Bytes decoded as UTF-8 and encoded again are the same: what the decoder takes as well-formed is what the encoder writes, and nothing else |
| `TextFields.Utf8Examples` | src/board/protocol/codec.ts:107-121 | The first and the last character of each length in UTF-8 |
| `TextFields.ControlsAgree` | src/board/protocol/codec.ts:123-130 | The control characters of the bytes are those of the string |
| `TextFields.TextFieldArrivesIff` | src/board/protocol/codec.ts:107-140 | For strings of code units: a text field that passes the checks arrives as it was if and only if it has no lone surrogate and no byte order mark at its start |
| `TextFields.SurrogateIsLost` | src/board/protocol/codec.ts:132-140 | A document key that is a lone surrogate passes every check and comes back as U+FFFD |
| `BoardCodec.Encoder.WriteVarUint` | src/board/protocol/codec.ts:142-148 | The byte loop appends the canonical form |
| `BoardCodec.VarUintEncodedLength` | src/board/protocol/codec.ts:504-512 | The loop counts the bytes of the canonical form |
| `BoardCodec.Decoder.ReadVarUint` | src/board/protocol/codec.ts:514-548 | The reader on a moving position accepts and yields what the specification reads, and leaves the rest |
| `BoardCodec.AssertChunk` | src/board/protocol/codec.ts:362-411 | A chunk passes exactly when its own fields are in range and its total, longer than its payload, can be cut into that many payloads of 1 to 256 KiB |
| `Chunks.ChunkCheckIff` | src/board/protocol/codec.ts:362-411 | The same as a law of the checks: the two tests of the total pass if and only if such a cut exists |
| `Chunks.PieceOfSplitIff` | src/board/protocol/codec.ts:384-411 | An accepted chunk can be one of the payloads of such a cut if and only if the other payloads can make up what it leaves |
| `Chunks.AcceptedButUnfinishable` | src/board/protocol/codec.ts:396-410 | A chunk that passes and cannot: one byte out of two full payloads |
| `Chunks.ChunkFrames` | src/server/board-v2/sync-transport.ts:1312-1342 | The sender of a large frame makes accepted chunks whose payloads join to the frame, and never too many of them |
| `Chunks.SentChunksAreSplit` | src/server/board-v2/sync-transport.ts:1312-1342 | Every chunk of a sender is a payload of such a cut |
| `Reassembly.ChunkReassembler.Push` | src/server/board-v2/sync-transport.ts:199-268 | Every branch of one arriving chunk: the assemblies, the buffered bytes and the answer |
| `Reassembly.ChunkReassembler.Expire` | src/server/board-v2/sync-transport.ts:206-211 | The timer of an assembly takes it and its bytes away |
| `Reassembly.PushKeepsInv` | src/server/board-v2/sync-transport.ts:240-248 | An accepted chunk keeps the buffered bytes equal to those of all assemblies, and the limit on the buffer is never what refuses a chunk |
| `Reassembly.ResultArrived` | src/server/board-v2/sync-transport.ts:199-268 | After every run of arrivals and expiries, bytes that come out are payloads that arrived under one id, one kind and one total, joined by index, and they decode to a frame of that kind |
| `Reassembly.AnyOrderReassembles` | src/server/board-v2/sync-transport.ts:199-268 | The chunks of a frame, in any order, repeated, and among those of another message: each is accepted, and the one that completes the indices, and no other, brings out the frame as it was encoded |
| `Reassembly.EncodedIsFrame` | src/server/board-v2/sync-transport.ts:263-267 | Every frame that can be encoded passes the final check of the reassembly |
| `BoardCodec.EncodeAuth` | src/board/protocol/codec.ts:190-222 | Appends the body that BoardRoundTrip reads back, or reports the first failing field check |
| `BoardCodec.EncodeReady` | src/board/protocol/codec.ts:224-250 | Appends the body that BoardRoundTrip reads back, or reports the first failing field check |
| `BoardCodec.EncodeSyncStep1` | src/board/protocol/codec.ts:252-264 | Appends the body that BoardRoundTrip reads back, or reports the first failing field check |
| `BoardCodec.EncodeSyncStep2` | src/board/protocol/codec.ts:266-278 | Appends the body that BoardRoundTrip reads back, or reports the first failing field check |
| `BoardCodec.EncodeUpdate` | src/board/protocol/codec.ts:280-290 | Appends the body that BoardRoundTrip reads back, or reports the first failing field check |
| `BoardCodec.EncodeAck` | src/board/protocol/codec.ts:292-303 | Appends the body that BoardRoundTrip reads back, or reports the first failing field check |
| `BoardCodec.EncodeAwareness` | src/board/protocol/codec.ts:305-323 | Appends the body that BoardRoundTrip reads back, or reports the first failing field check |
| `BoardCodec.EncodeControl` | src/board/protocol/codec.ts:325-360 | Appends the body that BoardRoundTrip reads back, or reports the first failing field check |
| `BoardCodec.EncodeChunk` | src/board/protocol/codec.ts:413-421 | Appends the body that BoardRoundTrip reads back, or reports the first failing field check |
| `BoardCodec.DecodeAuth` | src/board/protocol/codec.ts:616-655 | On the moving position, yields and leaves what BoardRoundTrip shows to be re-encodable, or the same error |
| `BoardCodec.DecodeReady` | src/board/protocol/codec.ts:657-690 | On the moving position, yields and leaves what BoardRoundTrip shows to be re-encodable, or the same error |
| `BoardCodec.DecodeSyncStep1` | src/board/protocol/codec.ts:692-703 | On the moving position, yields and leaves what BoardRoundTrip shows to be re-encodable, or the same error |
| `BoardCodec.DecodeSyncStep2` | src/board/protocol/codec.ts:705-716 | On the moving position, yields and leaves what BoardRoundTrip shows to be re-encodable, or the same error |
| `BoardCodec.DecodeUpdate` | src/board/protocol/codec.ts:718-730 | On the moving position, yields and leaves what BoardRoundTrip shows to be re-encodable, or the same error |
| `BoardCodec.DecodeAck` | src/board/protocol/codec.ts:732-745 | On the moving position, yields and leaves what BoardRoundTrip shows to be re-encodable, or the same error |
| `BoardCodec.DecodeAwareness` | src/board/protocol/codec.ts:747-763 | On the moving position, yields and leaves what BoardRoundTrip shows to be re-encodable, or the same error |
| `BoardCodec.DecodeControl` | src/board/protocol/codec.ts:765-802 | On the moving position, yields and leaves what BoardRoundTrip shows to be re-encodable, or the same error |
| `BoardCodec.DecodeChunk` | src/board/protocol/codec.ts:804-837 | On the moving position, yields and leaves what BoardRoundTrip shows to be re-encodable, or the same error |
| `BoardCodec.EncodeBoardFrame` | src/board/protocol/codec.ts:426-475 | Dispatch, header and body of one frame, tied to the encoding of the round-trip theorems |
| `BoardCodec.DecodeBoardFrame` | src/board/protocol/codec.ts:843-928 | One frame and nothing after it, tied to the decoding of the round-trip theorems |
| `Containers.OpenIff` | src/board/persistence/recoveryBundle.ts:250-281 | A magic text, a length and a header can be cut off a file in one way, and exactly off those files that were put together so |
| `Containers.FileLayout` | src/board/persistence/recoveryBundle.ts:129-133 | Where everything is in a file: the magic text, four bytes that give the length of the header, least first, the header, and the payload to the end |
| `Containers.ConcatenateBytes` | src/board/persistence/recoveryBundle.ts:135-151 | The copied parts follow each other without gap or overlap |
| `RecoveryBundle.CreateBoardRecoveryBundle` | src/board/persistence/recoveryBundle.ts:185-248 | Refused exactly for invalid fields, a header over its limit or an inexact length; otherwise the header, the document and every asset body in order |
| `RecoveryBundle.MagicIsText` | src/board/persistence/recoveryBundle.ts:5 | The magic text letter by letter |
| `RecoveryBundle.ParseAssets` | src/board/persistence/recoveryBundle.ts:317-346 | The cursor loop cuts one body after the other and leaves nothing |
| `RecoveryBundle.ParseBoardRecoveryBundle` | src/board/persistence/recoveryBundle.ts:250-356 | The parsing characterized by ParseIff |
| `RecoveryBundle.SplitIff` | src/board/persistence/recoveryBundle.ts:317-346 | For any number of assets, the bodies found are the only ones with these descriptors that make up the payload |
| `RecoveryBundle.ParseIff` | src/board/persistence/recoveryBundle.ts:250-356 | A file parses as a bundle exactly when it is the magic text, a header that describes the bundle, the document and the asset bodies, in order and with nothing else |
| `RecoveryBundle.ParseUndoesCreate` | src/board/persistence/recoveryBundle.ts:228-356 | A created bundle parses back to what went in |
| `RecoveryBundle.CreateUndoesParse` | src/board/persistence/recoveryBundle.ts:228-356 | A parsed bundle is created again as the same file if and only if the file has the header text the writer produces |
| `Strokes.ZigZagInverse` | src/board/core/strokes.ts:31-37 | The zigzag shifts and masks are inverse on all 32-bit numbers |
| `Strokes.DeltasFit` | src/board/core/strokes.ts:15-24 | The difference of any two coordinates in range survives 32-bit zigzag |
| `Strokes.GroupsOfLeb` | src/board/core/strokes.ts:48-59 | Reading at most five groups gives every 32-bit number back |
| `Strokes.StrokeRoundTrip` | src/board/core/strokes.ts:61-113 | Decoding an encoded stroke keeps the number of points, each coordinate within 1/128 and each clamped pressure within 1/510, and encoding it again gives the same bytes |
| `Strokes.DecodedIsNearest` | src/board/core/strokes.ts:15-29 | Each decoded coordinate is the multiple of 1/64 nearest to the original, each decoded pressure the multiple of 1/255 nearest to the clamped one, halves going up |
| `Strokes.GoldenStroke` | src/board/core/strokes.test.ts:5-16 | The example stroke of three points: its bytes, and the points they decode to |
| `Strokes.DecodedSumsAreExact` | src/board/core/strokes.ts:84-113 | Whatever the bytes, and whether or not decoding fails later, the running sums of every point read, and those of a point that fails after its x or its y, are exact integers |
| `Strokes.EncodeStrokePoints` | src/board/core/strokes.ts:61-82 | The loop over points, tied to the encoding of the round trip |
| `Strokes.DecodeStrokePoints` | src/board/core/strokes.ts:84-113 | The loop over the cursor, tied to the decoding of the round trip, with its errors |
| `Strokes.Cursor.ReadVarUint` | src/board/core/strokes.ts:48-59 | The shifts of the reader, modulo 2 to the 32, yield the groups that the specification reads |
| `UpdateMerge.GroupCoalesces` | src/board/core/sync.ts:29-42 | However much a merge grows, the halving ends and its outputs are merges of consecutive runs, each within the limit or a single update |
| `UpdateMerge.AllCoalesce` | src/board/core/sync.ts:49-82 | So are the outputs of all groups together |
| `UpdateMerge.OneOutputPerGroup` | src/board/core/sync.ts:49-82 | A merge that never grows gives one output per group |
| `UpdateMerge.MergeBoardUpdatesBounded` | src/board/core/sync.ts:49-82 | The outputs are the merges of groups that make up exactly the input in order, each group full; a limit below one is refused |
| `UpdateMerge.MeaningIsPreserved` | src/board/core/sync.ts:49-82 | Under an associative meaning, applying the outputs in order does what applying the inputs does |
| `UpdateMerge.OutputsAreFaithful` | src/board/core/sync.ts:49-82 | For the outputs of the loop: the meaning is kept, and every output fits or is an oversized input as it was |
| `LineGeometry.ElevatedCubicIsQuadratic` | src/board/core/lineGeometry.ts:194-218 | The degree-elevated cubic equals the quadratic at every parameter |
| `LineGeometry.CoordinateRange` | src/board/core/lineGeometry.ts:249-275 | The ends and an inner turning point are the exact range of the coordinate over the curve |
| `LineGeometry.BoardLineBounds` | src/board/core/lineGeometry.ts:249-275 | The box contains the whole curve and is tight on all four sides |
| `LineGeometry.ChordGap` | src/board/core/lineGeometry.ts:220-230 | Between two parameters a quadratic leaves its chord by the second difference times a product |
| `LineGeometry.FlatEnough` | src/board/core/lineGeometry.ts:316-347 | A step short enough for the error bound keeps the arc within it |
| `LineGeometry.UncappedIsFlat` | src/board/core/lineGeometry.ts:332-335 | With the computed number of segments, uncapped, every point of the curve is within the error bound of its chord |
| `LineGeometry.SampleBoardLine` | src/board/core/lineGeometry.ts:316-347 | The samples lie on the curve at equal parameters, start and end exactly, stay within the cap, and flatten the curve within the bound unless capped |
| `PointLines.BoardPointLineCubicPoints` | src/board/core/lineGeometry.ts:117-137 | The path passes through every anchor with a continuous derivative, its tangents given by the neighbouring anchors, at both ends by the one neighbour |
| `PointLines.PieceEnds` | src/board/core/lineGeometry.ts:293-312 | Each piece runs from its first anchor to its second |
| `PointLines.SamplesLieOnPath` | src/board/core/lineGeometry.ts:291-314 | In the one list of samples, sample i k + j is piece i at parameter j / k, so every anchor is a sample |
| `PointLines.BudgetIsKeptIff` | src/board/core/lineGeometry.ts:287-291 | The samples keep their budget exactly when it allows two a piece |
| `PointLines.DefaultBudgetIsKept` | src/board/core/lineGeometry.ts:287-291 | The default budget is kept for every line that parses |
| `PointLines.SamplePointLine` | src/board/core/lineGeometry.ts:282-315 | The nested loops produce that list; fewer than three anchors are their own samples |
| `PointLines.PathStaysNearBox` | src/board/core/lineGeometry.ts:235-248 | The path stays within m / (4 k k) of the box of its samples, where m bounds half the second derivative at the ends of a piece |
| `PathBox.PathInBoxIff` | src/board/core/lineGeometry.ts:235-248 | The exact condition: the whole path lies in the box of its samples if and only if every turning point strictly inside a piece has its coordinate in the box |
| `PathBox.TurnsAreZeros` | src/board/core/lineGeometry.ts:117-137 | The turning points of a coordinate, computed from the control points, are the zeros of its derivative, all of them and no others |
| `PathBox.ControlsInBoxSuffice` | src/board/core/lineGeometry.ts:117-137 | It is enough that the control points lie in the box |
| `PointLines.PathCanLeaveBox` | src/board/core/lineGeometry.ts:235-248 | A path that leaves the box: three anchors whose path turns back outside it |
| `PointLines.BoardPointLineBounds` | src/board/core/lineGeometry.ts:235-248 | The box of the samples, which contains every anchor |
| `PointLines.CreateBoardPointLine` | src/board/core/lineGeometry.ts:77-114 | Refused exactly when the anchors do not parse or their box is too large; otherwise the object sits at the corner of the box, at least one unit wide and high, and its stored anchors give the original ones back and parse again |
| `TerminalOutput.HoldMore` | public/python-terminal.worker.js:749-778 | Holding back output that may still have to give way to the marker: more output within the limit |
| `TerminalOutput.HoldCut` | public/python-terminal.worker.js:763-777 | The same when the limit is passed |
| `TerminalOutput.TerminalWorker.SendOutputChunk` | public/python-terminal.worker.js:727-740 | The text goes out in chunks of bounded size, none empty, that join to it |
| `TerminalOutput.TerminalWorker.AppendOutput` | public/python-terminal.worker.js:749-778 | Whatever pieces are written count as one text |
| `TerminalOutput.TerminalWorker.FinishOutput` | public/python-terminal.worker.js:805-809 | What was sent for a command is the truncation of everything it wrote |
| `TerminalOutput.TerminalWorker.RunCommand` | public/python-terminal.worker.js:993-1026 | For every split of the output, the messages of a command join to the whole text if it fits its limit, else to the prefix that leaves room for the marker and the marker, if that fits; the session counter grows by what was sent |
| `TerminalOutput.HostAcceptsOutput` | src/client/pythonTerminal.ts:439-453 | The messages of a command never trip the checks of the host, which assembles exactly the truncated text |
| `TerminalOutput.TerminalWorker.RunSession` | public/python-terminal.worker.js:993-1026 | Over any number of commands, the messages of each carry its output, cut to what those before it left of the session limit, and the session counter is the sum of what was sent |
| `TerminalOutput.SessionStaysWithinLimit` | public/python-terminal.worker.js:996-999 | These outputs add up to at most the limit of the session, each within the limit of a command |
| `TerminalOutput.ShortOutputsAreWhole` | public/python-terminal.worker.js:996-999 | Within 262144 units a command and 8388608 a session nothing is cut |
| `TerminalOutput.CutOutputIsFull` | public/python-terminal.worker.js:763-777 | A cut output fills its limit to the last unit: the prefix that leaves room for a line break and "[Output truncated]", then these |
| `TerminalOutput.RunnerOutput.Append` | public/python-runner.worker.js:847-885 | The one-shot runner: kept pieces, and a marker once the limit is passed |
| `TerminalOutput.RunnerOutputOf` | public/python-runner.worker.js:847-885 | After any run of pieces the output of the one-shot runner is the expected truncation if and only if no piece ends exactly at the limit with more to come; else the line break before the marker is missing |
| `TerminalOutput.LineBreakIsLost` | public/python-runner.worker.js:850-864 | A first piece of exactly the limit and one more, and the same text in one piece: the outputs differ in the line break before the marker |
| `WorkspaceDelta.ComputeDelta` | public/python-runner.worker.js:756-793 | The two loops and the sort produce exactly the changes needed, each once and in order |
| `WorkspaceDelta.SortAscends` | public/python-runner.worker.js:756-793 | Changes with distinct keys come out in strictly ascending order |
| `WorkspaceDelta.DeltaReproducesResult` | public/python-runner.worker.js:756-793 | Applying the delta to the baseline gives the result paths with the result bytes, and exactly the result files if and only if no unchanged file was respelled |
| `WorkspaceDelta.RespellingIsLost` | public/python-runner.worker.js:756-793 | A run that only respells a path has an empty delta, and the old spelling stays |
| `WorkspaceDelta.ParseWorkspaceDelta` | src/client/pythonRunner.ts:236-291 | The loop takes a delta exactly when it is strictly ordered, safe, against the known bases and within the size limits, and takes it as it is |
| `WorkspaceDelta.AcceptedIsHarmless` | src/client/pythonRunner.ts:236-291 | What taking an accepted delta can do: every file afterwards is as it was, or was written under a safe path within 2 MiB and replaces nothing or exactly the base it names; every file gone was deleted under its base; at most 1024 changes and 8 MiB |
| `WorkspaceDelta.DeltaIsAccepted` | src/client/pythonRunner.ts:236-291 | Every delta from a valid workspace to a bounded snapshot is accepted |
| `StdinHandshake.StepKeepsInv` | public/python-terminal.worker.js:685-721 | Every step of the worker, the page and the opaque host, within a command and between commands, keeps the handshake invariant |
| `StdinHandshake.StepKeepsOneCommand` | src/client/pythonTerminal.ts:600-652 | Every step keeps each command in one place, from the call of the page until the page has its result, and the host active exactly in between |
| `StdinHandshake.HandshakeIsSafe` | public/python-terminal.worker.js:685-721 | Over every interleaving and for both hosts, Python receives in order the decoded texts of the first lines accepted; the host never writes while the worker may read; and the worker never rejects what it reads |
| `StdinHandshake.LineArrivesIff` | public/python-terminal.worker.js:682-718 | In every run, a line Python receives is the line that was accepted if and only if that does not start with a byte order mark |
| `StdinHandshake.DirectHostNeverFails` | src/client/pythonTerminal.ts:454-482 | A page that writes the memory itself never meets a request or a result it must reject, over any number of commands up to the limit |
| `OpaqueHost.PoliteSessionNeverFails` | src/client/opaquePythonHost.bootstrap.js:229-375 | Through the opaque host, over any number of commands: if every interrupt is sent while the page shows a request, only more than 4096 commands end the session |
| `OpaqueHost.CommandBeyondLimitFails` | src/client/opaquePythonHost.bootstrap.js:391-395 | And the first command beyond that limit does |
| `OpaqueHost.EarlyInterruptCanFail` | src/client/opaquePythonHost.bootstrap.js:350-364 | In every reachable state of an open session within the limit on commands, with a command active on the page: an interrupt sent while the page shows no request has a continuation that fails, whatever is queued |
| `OpaqueHost.InterruptCanFailIff` | src/client/opaquePythonHost.bootstrap.js:350-364 | The exact condition for every interrupt after a run without early ones and within the limit on commands: it can end the session if and only if the page shows no request when it is sent |
| `OpaqueHost.InterruptOvertakesRequest` | src/client/opaquePythonHost.bootstrap.js:357-362 | One way: the interrupt answers a request before it arrives, and the request then fails the session |
| `OpaqueHost.ResultOvertakesInterrupt` | src/client/opaquePythonHost.bootstrap.js:287-289 | The other way, without any request for input: the result of the command passes the host before the interrupt arrives there and is rejected |
| `Sha256.ValueOfBinary` | public/python-runner.worker.js:231-233 | Words and the numbers they stand for determine each other |
| `Sha256.PaddingOnTheFly` | public/python-runner.worker.js:251-266 | Each byte computed from its offset is that byte of the padded message of section 5.1.1 of FIPS 180-4: data, marker, zeros and length field never overlap |
| `Sha256.PaddedLengthIsPadLength` | public/python-runner.worker.js:237-238 | The length computed up front is the length of the padded message, in whole blocks |
| `Sha256.RotationByShifts` | public/python-runner.worker.js:231-233 | Two shifts and an or rotate the word |
| `Sha256.Mod32IsModular` | public/python-runner.worker.js:274-307 | The addition of the standard satisfies the laws under which the order and the signs of the sums do not matter |
| `Sha256Constants.PrimesAreFirst` | public/python-runner.worker.js:77-89 | The 64 numbers the constants come from are the first 64 primes, none missing |
| `Sha256Constants.ConstantsAreCubeRoots` | public/python-runner.worker.js:77-89 | Constant t is the first 32 bits of the fraction of the cube root of prime t, as section 4.2.2 of FIPS 180-4 says, for all 64 |
| `Sha256Constants.InitialIsSquareRoots` | public/python-runner.worker.js:242-249 | The initial hash value holds the fractions of the square roots of the first eight primes, as section 5.3.3 says |
| `Sha256Constants.ChChooses` | public/python-runner.worker.js:286 | Each bit of the choice is the bit of the second word where the first has a one, else of the third |
| `Sha256Constants.MajIsMajority` | public/python-runner.worker.js:289 | Each bit of the majority is set exactly when it is in at least two of the words |
| `Sha256Constants.BigSigma0Bits` | public/python-runner.worker.js:288 | Bit j of the sum is the parity of the bits 2, 13 and 22 places up, around the word |
| `Sha256Constants.BigSigma1Bits` | public/python-runner.worker.js:285 | The same with 6, 11 and 25 |
| `Sha256Constants.SmallSigma0Bits` | public/python-runner.worker.js:272 | The same with 7 and 18 around the word and 3 up to its end |
| `Sha256Constants.SmallSigma1Bits` | public/python-runner.worker.js:273 | The same with 17, 19 and 10 |
| `Sha256Words.BitVectorsWork` | public/python-runner.worker.js:231-307 | Exclusive or, and, addition, the ten rotations and two shifts of words are the machine operations on 32-bit vectors |
| `Sha256Words.RoundOfWords` | public/python-runner.worker.js:284-299 | A round on words is the round computed with any machine that does those |
| `Sha256Words.ValueOfBits` | public/python-runner.worker.js:231-233 | The number of a word is the number its vector shows in hexadecimal |
| `Sha256Vector.DigestOfExample` | public/python-runner.worker.js:235-314 | The digest of the two-block example "abcdbcde...nopq" is the published one, 248d6a61 ... 19db06c1 |
| `Sha256.HashMessage` | public/python-runner.worker.js:235-314 | The nested loops over blocks, schedule and rounds compute the digest defined block by block, over any words that satisfy those laws |
| `Sha256.Sha256Fallback` | public/python-runner.worker.js:235-314 | The digest of section 6.2.2 of FIPS 180-4, for every message whose bit length is an exact number |

## Left out

- RevocationSafety.NoLostRevocation: holds for runs that select a batch only when no other can do anything; RevocationIsLostIff says exactly when a revocation is lost without that.
- MaintenanceRunner.ApplicationNeverLosesARevocation: leaves out runs in which a row write throws beside an unfinished worker, because ThrowOverlapsIff shows that exactly those can overlap batches; NoLostWakeup covers them.
- CallSafety.RevocationsAreJustified: leaves out the same runs; CurrentRoomsAreNeverRevoked covers them.
- MaintenanceRunner.NoLostWakeup: a deployment without a LiveKit service, whose batches select nothing and delete nothing, is not modelled.
- MaintenanceRunner.WaitingCallersProgress: says that some step is enabled, not that a scheduler takes it.
- GuestCalls.GuestRoomService.DeleteRoomContent: a room has at most one call, which is all the program creates (`src/server/guestRooms.ts:355-381`); the loop over its call resources is one step.
- GuestCalls.CapacityHolds: holds for runs without a refresh of a lapsed lease; CapacityBound and PresenceKeepsLimitIff say what happens otherwise.
- GuestCalls.GuestRoomService.ReleaseExpiredCallActivations: takes the listed candidates as a parameter; each is checked again, as in the transaction.
- RevocationOutbox.Outbox.SettleRow: the batch query is the predicate IsDueBatch over the rows (due, in order of their times and names, at most the limit), not SQL.
- AuthRateLimit.AuthRateLimitStore.Consume: the rows a cleanup deletes are a parameter constrained by IsCleanup; the subject hash is any function.
- SocketAdmission.SocketAdmissionController.Release: timers are calls of Release at any moment; the reading of the source address from headers is a parameter.
- PacketSize.BoundedSocketPacketBytes: a packet is a tree; shared and cyclic references, accessors and foreign prototypes are one unsupported value, and the text of a number is a parameter.
- FragmentInsert.InsertBoardFragment: does not model the size limit of the pasted update or the cloning of shared Yjs types; coordinates are reals.
- FragmentCodec.DecodeIff: JSON text and the reading of the document update are parameters, JSON with the law that reading undoes writing; an extra field in the header is such another text of it.
- RecoveryBundle.ParseIff: JSON text and date parsing are parameters in the same way; an omitted file name is a null one; a document is the update that Yjs encodes for it, which is never empty.
- BoardCodec.EncodeBoardFrame: text is the UTF-8 bytes that TextFields derives from a string; numbers that are not integers do not occur.
- Reassembly.AnyOrderReassembles: the server's reassembly; a timer is an expiry at any moment, and the copy of it in the client is not modelled.
- BoardCodec.Decoder.ReadVarUint: an overlong run of zero groups long enough to overflow the multiplier of the decoding library is refused with another error code than there.
- Strokes.StrokeRoundTrip: coordinates and pressures are reals; quantised points, deltas and bytes are exact integers.
- LineGeometry.SampleBoardLine: the results of hypot and sqrt are parameters that satisfy their equations; rounding is not modelled.
- PointLines.PathStaysNearBox: bounds how far the path leaves the box; PathInBoxIff says when it does not leave it.
- PathBox.PathInBoxIff: square roots are a parameter that satisfies their equation.
- UpdateMerge.MeaningIsPreserved: the Yjs merge is a parameter, and so is the meaning of an update, with an associative join.
- TerminalOutput.TerminalWorker.RunCommand: output arrives as pieces of text; streaming UTF-8 decoding and running Python are not modelled.
- WorkspaceDelta.DeltaReproducesResult: lower-casing and path safety are parameters; walking the file system and checking the shape of JavaScript objects are not modelled.
- StdinHandshake.HandshakeIsSafe: a timeout is a close at any moment; the terminal's modes, its start and the interrupt flag read by Python are not modelled.
- OpaqueHost.InterruptCanFailIff: that a session can fail means that some further run of the steps does; nothing is said of how often.
- IngressScopes.DenialEnds: says nothing of a scope that is refused because the map of scopes is full of others.
- Sha256.Sha256Fallback: words are sequences of 32 bits, and messages have a bit length that is an exact number.
- Times are integers and clocks do not run backwards in the theorems about runs; one bucket's reaction to a clock that does is modelled.
- The creation of guest rooms, their shares, boards and tombstones, and the limit on rooms; keys of new resources are fresh.
- The composition of the socket guard over address, principal and wire limits, which only adds calls to the scopes modelled here.
- Image assets of fragments, board schema validation, and the Yjs, SQLite, LiveKit, Pyodide and Socket.IO libraries.
- Request parsing and asset verification of the Python workers, and the exactly-once settling of their results.
- User interface, routing, configuration, migrations, cookies, passwords and headers.
