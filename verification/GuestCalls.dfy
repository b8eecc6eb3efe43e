/**
 Guest rooms with at most one call each. A call's LiveKit room is named by the
 call's key and generation; releasing an unoccupied reservation rotates the
 generation, and deleting a room enqueues the revocation of its current name.
 Times are milliseconds; an inactive call carries the epoch.
 */
module GuestCalls {
  import opened Numbers
  import opened Wrappers
  import opened RevocationOutbox

  const IDLE_TTL_MS := 48 * 60 * 60 * 1000
  const PRESENCE_GRACE_MS := 2 * 60 * 1000
  const LEASE_MS := 15 * 60 * 1000
  const INACTIVE_AT := 0
  const KEY_LENGTH := 32

  type Generation = n: int | 1 <= n witness 1
  type RoomId = nat

  datatype Initialization = Plain | Draft(expiresAt: int, finalized: bool)

  datatype Call = Call(key: string, generation: Generation, lastActivityAt: int)

  datatype Room = Room(expiresAt: int, init: Initialization, call: Option<Call>)

  type Rooms = map<RoomId, Room>

  // ----- room names

  function Decimal(n: nat): (s: string)
    ensures s != ""
  {
    if n < 10 then [('0' as int + n) as char] else Decimal(n / 10) + [('0' as int + n % 10) as char]
  }

  /** The number that decimal digits stand for. */
  function DecimalValue(s: string): int {
    if s == "" then 0 else 10 * DecimalValue(s[..|s| - 1]) + (s[|s| - 1] as int - '0' as int)
  }

  lemma {:induction false} DecimalIsDecimal(n: nat)
    ensures DecimalValue(Decimal(n)) == n && forall c | c in Decimal(n) :: '0' <= c <= '9'
    ensures Decimal(n)[0] == '0' ==> n == 0
    decreases n
  {
    if n >= 10 {
      DecimalIsDecimal(n / 10);
      assert Decimal(n)[..|Decimal(n)| - 1] == Decimal(n / 10);
    }
  }

  function GuestCallRoomName(key: string, generation: Generation): RoomName {
    "eduri-guest-" + key + (if generation == 1 then "" else "-g" + Decimal(generation))
  }

  function LessonRoomName(meetingKey: string): RoomName {
    "eduri-" + meetingKey
  }

  lemma {:induction false} DecimalInjective(a: nat, b: nat)
    requires Decimal(a) == Decimal(b)
    ensures a == b
  {
    var s, t := Decimal(a), Decimal(b);
    if a >= 10 && b >= 10 {
      assert s[..|s| - 1] == Decimal(a / 10) && t[..|t| - 1] == Decimal(b / 10);
      assert s[|s| - 1] == t[|t| - 1];
      DecimalInjective(a / 10, b / 10);
    }
  }

  /** On keys of the fixed length the name determines the key and the generation. */
  lemma RoomNameInjective(key: string, generation: Generation, key': string, generation': Generation)
    requires |key| == |key'| == KEY_LENGTH
    requires GuestCallRoomName(key, generation) == GuestCallRoomName(key', generation')
    ensures key == key' && generation == generation'
  {
    var name := GuestCallRoomName(key, generation);
    assert name[12..44] == key;
    assert GuestCallRoomName(key', generation')[12..44] == key';
    if generation != 1 && generation' != 1 {
      assert name[46..] == Decimal(generation);
      assert GuestCallRoomName(key', generation')[46..] == Decimal(generation');
      DecimalInjective(generation, generation');
    }
  }

  /** Without the fixed length it does not. */
  lemma RoomNameNeedsFixedLength()
    ensures GuestCallRoomName("a-g2", 1) == GuestCallRoomName("a", 2)
  {
    assert Decimal(2) == "2";
  }

  /** A meeting key too short, or not of the form, to be read as the end of a guest name. */
  predicate PlainMeetingKey(meetingKey: string) {
    |meetingKey| < 6 + KEY_LENGTH || meetingKey[..6] != "guest-"
  }

  /** A lesson and a guest call share a room name only if the meeting key is the rest of the guest name. */
  lemma LessonNamesAreNotGuestNames(meetingKey: string, key: string, generation: Generation)
    ensures LessonRoomName(meetingKey) == GuestCallRoomName(key, generation) <==> meetingKey == GuestCallRoomName(key, generation)[6..]
    ensures |key| == KEY_LENGTH && PlainMeetingKey(meetingKey) ==> LessonRoomName(meetingKey) != GuestCallRoomName(key, generation)
  {
    var lesson, guest := LessonRoomName(meetingKey), GuestCallRoomName(key, generation);
    assert lesson[..6] == "eduri-" && lesson[6..] == meetingKey;
    assert guest[..6] == "eduri-" && guest == guest[..6] + guest[6..];
    assert guest[6..][..6] == "guest-";
  }

  lemma {:induction false} DecimalShort(n: nat, digits: nat)
    requires n < Pow10(digits) && digits > 0
    ensures |Decimal(n)| <= digits
    ensures forall c | c in Decimal(n) :: '0' <= c <= '9'
    decreases digits
  {
    if n >= 10 {
      DecimalShort(n / 10, digits - 1);
    }
  }

  function Pow10(n: nat): nat {
    if n == 0 then 1 else 10 * Pow10(n - 1)
  }

  /** The outbox accepts every guest name as it is: a token key and a safe-integer generation. */
  lemma GuestNamesAreAccepted(key: string, generation: Generation)
    requires |key| == KEY_LENGTH && forall c | c in key :: !IsSpace(c)
    requires generation < 0x20_0000_0000_0000
    ensures var name := GuestCallRoomName(key, generation); Trim(name) == name && ValidName(name)
  {
    var name := GuestCallRoomName(key, generation);
    assert Pow10(16) == 10_000_000_000_000_000 by {
      assert Pow10(4) == 10_000;
      assert Pow10(8) == 100_000_000;
      assert Pow10(12) == 1_000_000_000_000;
    }
    DecimalShort(generation, 16);
    assert name[0] == 'e' && name[|name| - 1] in key + Decimal(generation);
  }

  // ----- which calls count against the capacity

  predicate Open(room: Room, now: int) {
    room.init.Plain? || room.init.finalized || room.init.expiresAt > now
  }

  predicate Counted(room: Room, now: int) {
    && room.call.Some?
    && room.call.value.lastActivityAt > now - LEASE_MS
    && room.expiresAt > now - PRESENCE_GRACE_MS
    && Open(room, now)
  }

  function CountedCalls(rooms: Rooms, now: int): set<RoomId> {
    set id | id in rooms && Counted(rooms[id], now)
  }

  /** The instant at which a counted call stops counting if nothing else happens. */
  function DropsAt(room: Room): int
    requires room.call.Some?
  {
    var expiry := Min(room.call.value.lastActivityAt + LEASE_MS, room.expiresAt + PRESENCE_GRACE_MS);
    if room.init.Draft? && !room.init.finalized then Min(expiry, room.init.expiresAt) else expiry
  }

  ghost predicate IsNearestDrop(rooms: Rooms, now: int, at: int) {
    && (forall id | id in CountedCalls(rooms, now) :: at <= DropsAt(rooms[id]))
    && (exists id :: id in CountedCalls(rooms, now) && at == DropsAt(rooms[id]))
  }

  /** What `callCapacityRetryAfterMs` may answer. */
  ghost predicate IsRetryHint(rooms: Rooms, now: int, retry: int) {
    if CountedCalls(rooms, now) == {} then retry == 60_000
    else exists at :: IsNearestDrop(rooms, now, at) && retry == (if at - now < 1_000 then 1_000 else at - now)
  }

  /**
   With no other step, after the hint at least one counted call has dropped out
   and none has joined; and unless the hint is the floor, none drops out earlier.
   */
  lemma RetryHintIsExact(rooms: Rooms, now: int, retry: int)
    requires CountedCalls(rooms, now) != {} && IsRetryHint(rooms, now, retry)
    ensures CountedCalls(rooms, now + retry) < CountedCalls(rooms, now)
    ensures retry > 1_000 ==> forall u | now <= u < now + retry :: CountedCalls(rooms, u) == CountedCalls(rooms, now)
    ensures retry >= 1_000
  {
    var at :| IsNearestDrop(rooms, now, at) && retry == (if at - now < 1_000 then 1_000 else at - now);
    forall u, id | now <= u && id in rooms && rooms[id].call.Some?
      ensures id in CountedCalls(rooms, u) <==> id in CountedCalls(rooms, now) && u < DropsAt(rooms[id])
    {
    }
    var first :| first in CountedCalls(rooms, now) && at == DropsAt(rooms[first]);
    assert first !in CountedCalls(rooms, now + retry);
    if retry > 1_000 {
      forall u | now <= u < now + retry ensures CountedCalls(rooms, u) == CountedCalls(rooms, now) {
        assert forall id | id in CountedCalls(rooms, now) :: id in CountedCalls(rooms, u);
      }
    }
  }

  // ----- the service's transactions as functions of the stored rooms

  predicate Active(rooms: Rooms, id: RoomId, now: int, grace: int) {
    id in rooms && rooms[id].expiresAt > now - grace && Open(rooms[id], now)
  }

  datatype Activation = Missing | AlreadyActive | CapacityReached | Reserved

  function ActivationOf(rooms: Rooms, id: RoomId, now: int, limit: nat): Activation {
    if !Active(rooms, id, now, 0) || rooms[id].call.None? then Missing
    else if rooms[id].call.value.lastActivityAt > now - LEASE_MS then AlreadyActive
    else if |CountedCalls(rooms, now)| >= limit then CapacityReached
    else Reserved
  }

  function AfterActivate(rooms: Rooms, id: RoomId, now: int, limit: nat): Rooms {
    if ActivationOf(rooms, id, now, limit).Reserved?
    then rooms[id := rooms[id].(call := Some(rooms[id].call.value.(lastActivityAt := now)))]
    else rooms
  }

  function Touched(room: Room, now: int): Room {
    room.(expiresAt := now + IDLE_TTL_MS)
  }

  /** `recordCallPresence`: works within the grace, and revives a lapsed reservation. */
  function AfterPresence(rooms: Rooms, id: RoomId, now: int): Rooms {
    if Active(rooms, id, now, PRESENCE_GRACE_MS) && rooms[id].call.Some?
    then rooms[id := Touched(rooms[id], now).(call := Some(rooms[id].call.value.(lastActivityAt := now)))]
    else rooms
  }

  /** `recordResourceMutation` on a board or code resource of the room. */
  function AfterMutation(rooms: Rooms, id: RoomId, now: int): Rooms {
    if Active(rooms, id, now, 0) then rooms[id := Touched(rooms[id], now)] else rooms
  }

  predicate Releasable(rooms: Rooms, id: RoomId, now: int) {
    && id in rooms && rooms[id].call.Some?
    && INACTIVE_AT < rooms[id].call.value.lastActivityAt <= now - LEASE_MS
  }

  function CurrentName(room: Room): RoomName
    requires room.call.Some?
  {
    GuestCallRoomName(room.call.value.key, room.call.value.generation)
  }

  function AfterReleaseOne(rooms: Rooms, id: RoomId, now: int): Rooms {
    if Releasable(rooms, id, now)
    then var call := rooms[id].call.value;
         rooms[id := rooms[id].(call := Some(call.(lastActivityAt := INACTIVE_AT, generation := call.generation + 1)))]
    else rooms
  }

  /** Rooms and enqueued names of `releaseExpiredCallActivations`, one resource after the other. */
  function AfterRelease(rooms: Rooms, ids: seq<RoomId>, now: int): (Rooms, seq<RoomName>) {
    if ids == [] then (rooms, [])
    else
      var rest := AfterRelease(AfterReleaseOne(rooms, ids[0], now), ids[1..], now);
      (rest.0, (if Releasable(rooms, ids[0], now) then [CurrentName(rooms[ids[0]])] else []) + rest.1)
  }

  predicate Expired(room: Room, now: int, confirmedEmpty: bool) {
    || (room.expiresAt <= now && (room.expiresAt <= now - PRESENCE_GRACE_MS || room.call.None? || confirmedEmpty))
    || (room.init.Draft? && !room.init.finalized && room.init.expiresAt <= now)
  }

  /** A presence of a call is recorded as long as its room has not expired without a confirmation that it is empty. */
  lemma PresenceUntilExpired(rooms: Rooms, id: RoomId, now: int)
    requires id in rooms && rooms[id].call.Some?
    ensures Expired(rooms[id], now, false) ==> AfterPresence(rooms, id, now) == rooms
    ensures !Expired(rooms[id], now, false) ==> AfterPresence(rooms, id, now)[id].call.value.lastActivityAt == now
  {
  }

  /**
   What a recorded presence buys: 48 hours until the room can expire empty, two minutes more until it expires in any
   case, and a quarter of an hour in which its call counts and is not released.
   */
  lemma PresenceLasts(rooms: Rooms, id: RoomId, now: int, later: int)
    requires Active(rooms, id, now, 120_000) && rooms[id].call.Some? && 0 < now <= later
    ensures var next := AfterPresence(rooms, id, now);
      && id in next && next[id].call.Some?
      && (Open(next[id], later) ==> (Expired(next[id], later, true) <==> now + 172_800_000 <= later))
      && (Open(next[id], later) ==> (Expired(next[id], later, false) <==> now + 172_920_000 <= later))
      && (Counted(next[id], later) <==> later < now + 900_000 && Open(next[id], later))
      && (Releasable(next, id, later) <==> now + 900_000 <= later)
  {
  }

  /** A reservation counts for a quarter of an hour and leaves the expiry of the room as it was. */
  lemma ReservationLasts(rooms: Rooms, id: RoomId, now: int, limit: nat, later: int)
    requires ActivationOf(rooms, id, now, limit).Reserved? && 0 < now <= later
    ensures var next := AfterActivate(rooms, id, now, limit);
      && id in next && next[id].call.Some? && next[id].expiresAt == rooms[id].expiresAt > now
      && (Releasable(next, id, later) <==> now + 900_000 <= later)
      && (Counted(next[id], later) <==>
            later < now + 900_000 && later < rooms[id].expiresAt + 120_000 && Open(next[id], later))
  {
  }

  function NamesOf(room: Room): seq<RoomName> {
    if room.call.Some? then [CurrentName(room)] else []
  }

  /** Rooms and enqueued names after `deleteRoomContent` of each id in turn. */
  function AfterDeleteRooms(rooms: Rooms, ids: seq<RoomId>): (Rooms, seq<RoomName>) {
    if ids == [] then (rooms, [])
    else
      var rest := AfterDeleteRooms(rooms - {ids[0]}, ids[1..]);
      (rest.0, (if ids[0] in rooms then NamesOf(rooms[ids[0]]) else []) + rest.1)
  }

  function AfterEnqueues(rows: Rows, names: seq<RoomName>, now: int): Rows
    decreases |names|
  {
    if names == [] then rows else AfterEnqueues(AfterEnqueue(rows, names[0], now), names[1..], now)
  }

  // ----- the service

  class GuestRoomService {
    var rooms: Rooms
    var outbox: Rows
    const maxActiveCalls: nat

    constructor (maxActiveCalls: nat)
      ensures rooms == map[] && outbox == map[] && this.maxActiveCalls == maxActiveCalls
    {
      rooms, outbox := map[], map[];
      this.maxActiveCalls := maxActiveCalls;
    }

    method CallCapacityRetryAfterMs(now: int) returns (retry: int)
      ensures IsRetryHint(rooms, now, retry)
    {
      var counted := CountedCalls(rooms, now);
      if counted == {} {
        return 60_000;
      }
      var first :| first in counted;
      var availableAt := DropsAt(rooms[first]);
      var rest := counted - {first};
      while rest != {}
        invariant rest <= counted
        invariant forall id | id in counted - rest :: availableAt <= DropsAt(rooms[id])
        invariant exists id :: id in counted && availableAt == DropsAt(rooms[id])
        decreases |rest|
      {
        var id :| id in rest;
        if DropsAt(rooms[id]) < availableAt {
          availableAt := DropsAt(rooms[id]);
        }
        rest := rest - {id};
      }
      assert IsNearestDrop(rooms, now, availableAt);
      retry := if availableAt - now < 1_000 then 1_000 else availableAt - now;
    }

    method ActivateCall(id: RoomId, now: int) returns (activation: Activation, roomName: RoomName, retryAfterMs: int)
      modifies this
      ensures activation == ActivationOf(old(rooms), id, now, maxActiveCalls)
      ensures rooms == AfterActivate(old(rooms), id, now, maxActiveCalls) && outbox == old(outbox)
      ensures activation.AlreadyActive? || activation.Reserved? ==>
        id in old(rooms) && old(rooms)[id].call.Some? && roomName == CurrentName(old(rooms)[id])
      ensures activation.CapacityReached? ==> IsRetryHint(old(rooms), now, retryAfterMs)
    {
      activation, roomName, retryAfterMs := Missing, "", 0;
      if id !in rooms || rooms[id].expiresAt <= now || !Open(rooms[id], now) || rooms[id].call.None? {
        return;
      }
      var call := rooms[id].call.value;
      roomName := GuestCallRoomName(call.key, call.generation);
      if !(call.lastActivityAt <= now - LEASE_MS) {
        activation := AlreadyActive;
        return;
      }
      if |CountedCalls(rooms, now)| >= maxActiveCalls {
        activation := CapacityReached;
        retryAfterMs := CallCapacityRetryAfterMs(now);
        return;
      }
      rooms := rooms[id := rooms[id].(call := Some(Call(call.key, call.generation, now)))];
      activation := Reserved;
    }

    method RecordCallPresence(id: RoomId, now: int) returns (recorded: bool)
      modifies this
      ensures recorded == (Active(old(rooms), id, now, PRESENCE_GRACE_MS) && old(rooms)[id].call.Some?)
      ensures rooms == AfterPresence(old(rooms), id, now) && outbox == old(outbox)
    {
      if id !in rooms || rooms[id].expiresAt <= now - PRESENCE_GRACE_MS || rooms[id].call.None? || !Open(rooms[id], now) {
        return false;
      }
      var call := rooms[id].call.value;
      rooms := rooms[id := Room(now + IDLE_TTL_MS, rooms[id].init, Some(Call(call.key, call.generation, now)))];
      recorded := true;
    }

    /** One candidate, checked again: its call moves to the next generation and its old name is enqueued. */
    method ReleaseOne(id: RoomId, now: int) returns (given: seq<RoomName>)
      modifies this
      ensures rooms == AfterReleaseOne(old(rooms), id, now)
      ensures given == if Releasable(old(rooms), id, now) then [CurrentName(old(rooms)[id])] else []
      ensures outbox == AfterEnqueues(old(outbox), given, now)
    {
      given := [];
      if id in rooms && rooms[id].call.Some? {
        var call := rooms[id].call.value;
        if call.lastActivityAt > INACTIVE_AT && call.lastActivityAt <= now - LEASE_MS {
          var oldName := GuestCallRoomName(call.key, call.generation);
          rooms := rooms[id := rooms[id].(call := Some(Call(call.key, call.generation + 1, INACTIVE_AT)))];
          EnqueuesOne(outbox, oldName, now);
          outbox := AfterEnqueue(outbox, oldName, now);
          given := [oldName];
        }
      }
    }

    method ReleaseExpiredCallActivations(ids: seq<RoomId>, now: int) returns (names: seq<RoomName>)
      modifies this
      ensures rooms == AfterRelease(old(rooms), ids, now).0 && names == AfterRelease(old(rooms), ids, now).1
      ensures outbox == AfterEnqueues(old(outbox), names, now)
    {
      names := [];
      ghost var all := AfterRelease(rooms, ids, now);
      for i := 0 to |ids|
        invariant ReleasedSoFar(all, rooms, names, ids[i..], now)
        invariant outbox == AfterEnqueues(old(outbox), names, now)
      {
        ReleaseStep(all, rooms, names, ids, i, now);
        var given := ReleaseOne(ids[i], now);
        EnqueuesConcat(old(outbox), names, given, now);
        names := names + given;
      }
      assert ids[|ids|..] == [] && names + [] == names;
    }

    /** The calls of the room are enqueued, then the room goes. */
    method DeleteRoomContent(id: RoomId, now: int) returns (given: seq<RoomName>)
      modifies this
      ensures rooms == old(rooms) - {id}
      ensures given == if id in old(rooms) then NamesOf(old(rooms)[id]) else []
      ensures outbox == AfterEnqueues(old(outbox), given, now)
    {
      given := [];
      if id in rooms && rooms[id].call.Some? {
        var name := CurrentName(rooms[id]);
        EnqueuesOne(outbox, name, now);
        outbox := AfterEnqueue(outbox, name, now);
        given := [name];
      }
      rooms := rooms - {id};
    }

    /** `cleanupExpired` once its query has listed the expired rooms, or one `cancelDraft`. */
    method DeleteRooms(ids: seq<RoomId>, now: int) returns (names: seq<RoomName>)
      modifies this
      ensures rooms == AfterDeleteRooms(old(rooms), ids).0 && names == AfterDeleteRooms(old(rooms), ids).1
      ensures outbox == AfterEnqueues(old(outbox), names, now)
    {
      names := [];
      ghost var all := AfterDeleteRooms(rooms, ids);
      for i := 0 to |ids|
        invariant DeletedSoFar(all, rooms, names, ids[i..])
        invariant outbox == AfterEnqueues(old(outbox), names, now)
      {
        DeleteStep(all, rooms, names, ids, i);
        var given := DeleteRoomContent(ids[i], now);
        EnqueuesConcat(old(outbox), names, given, now);
        names := names + given;
      }
      assert ids[|ids|..] == [] && names + [] == names;
    }
  }

  /** `rest` is still to be checked for release. */
  ghost predicate ReleasedSoFar(all: (Rooms, seq<RoomName>), rooms: Rooms, names: seq<RoomName>, rest: seq<RoomId>, now: int) {
    all.0 == AfterRelease(rooms, rest, now).0 && all.1 == names + AfterRelease(rooms, rest, now).1
  }

  lemma ReleaseStep(all: (Rooms, seq<RoomName>), rooms: Rooms, names: seq<RoomName>, ids: seq<RoomId>, i: nat, now: int)
    requires i < |ids| && ReleasedSoFar(all, rooms, names, ids[i..], now)
    ensures ReleasedSoFar(all, AfterReleaseOne(rooms, ids[i], now),
                          names + (if Releasable(rooms, ids[i], now) then [CurrentName(rooms[ids[i]])] else []), ids[i + 1..], now)
  {
    assert ids[i..][1..] == ids[i + 1..];
  }

  /** `rest` is still to be deleted from these rooms. */
  ghost predicate DeletedSoFar(all: (Rooms, seq<RoomName>), rooms: Rooms, names: seq<RoomName>, rest: seq<RoomId>) {
    all.0 == AfterDeleteRooms(rooms, rest).0 && all.1 == names + AfterDeleteRooms(rooms, rest).1
  }

  lemma DeleteStep(all: (Rooms, seq<RoomName>), rooms: Rooms, names: seq<RoomName>, ids: seq<RoomId>, i: nat)
    requires i < |ids| && DeletedSoFar(all, rooms, names, ids[i..])
    ensures DeletedSoFar(all, rooms - {ids[i]}, names + (if ids[i] in rooms then NamesOf(rooms[ids[i]]) else []), ids[i + 1..])
  {
    assert ids[i..][1..] == ids[i + 1..];
  }

  lemma EnqueuesOne(rows: Rows, name: RoomName, now: int)
    ensures AfterEnqueues(rows, [name], now) == AfterEnqueue(rows, name, now)
  {
    assert AfterEnqueues(rows, [name], now) == AfterEnqueues(AfterEnqueue(rows, name, now), [name][1..], now);
  }

  lemma {:induction false} EnqueuesConcat(rows: Rows, names: seq<RoomName>, more: seq<RoomName>, now: int)
    ensures AfterEnqueues(rows, names + more, now) == AfterEnqueues(AfterEnqueues(rows, names, now), more, now)
    decreases |names|
  {
    if names == [] {
      assert names + more == more;
    } else {
      assert (names + more)[1..] == names[1..] + more;
      EnqueuesConcat(AfterEnqueue(rows, names[0], now), names[1..], more, now);
    }
  }

  // ----- runs of the service

  datatype ServiceOp =
    | CreateRoom(id: RoomId, init: Initialization, key: Option<string>)
    | AddCall(id: RoomId, callKey: string)
    | Activate(id: RoomId)
    | Presence(id: RoomId)
    | Mutation(id: RoomId)
    | Release(ids: seq<RoomId>)
    | Finalize(id: RoomId)
    | CancelDraft(id: RoomId)
    | Cleanup(confirmedEmpty: set<RoomId>, ids: seq<RoomId>)

  function NewCall(key: Option<string>): Option<Call> {
    if key.Some? then Some(Call(key.value, 1, INACTIVE_AT)) else None
  }

  ghost predicate CanServe(rooms: Rooms, op: ServiceOp, now: int) {
    match op
    case CreateRoom(id, init, key) => id !in rooms && (init.Draft? ==> !init.finalized)
    case AddCall(id, _) => Active(rooms, id, now, 0) && rooms[id].call.None?
    case Finalize(id) =>
      Active(rooms, id, now, 0) && rooms[id].init.Draft? && !rooms[id].init.finalized && rooms[id].init.expiresAt > now
    case CancelDraft(id) =>
      Active(rooms, id, now, 0) && rooms[id].init.Draft? && !rooms[id].init.finalized && rooms[id].init.expiresAt > now
    case Cleanup(confirmed, ids) =>
      && (forall i, j | 0 <= i < j < |ids| :: ids[i] != ids[j])
      && (forall id :: id in ids <==> id in rooms && Expired(rooms[id], now, id in confirmed))
    case _ => true
  }

  function Serve(rooms: Rooms, op: ServiceOp, now: int, limit: nat): (Rooms, seq<RoomName>) {
    match op
    case CreateRoom(id, init, key) => (rooms[id := Room(now + IDLE_TTL_MS, init, NewCall(key))], [])
    case AddCall(id, key) =>
      (if id in rooms then rooms[id := Touched(rooms[id], now).(call := NewCall(Some(key)))] else rooms, [])
    case Activate(id) => (AfterActivate(rooms, id, now, limit), [])
    case Presence(id) => (AfterPresence(rooms, id, now), [])
    case Mutation(id) => (AfterMutation(rooms, id, now), [])
    case Release(ids) => AfterRelease(rooms, ids, now)
    case Finalize(id) =>
      (if id in rooms && rooms[id].init.Draft? then rooms[id := rooms[id].(init := rooms[id].init.(finalized := true))] else rooms, [])
    case CancelDraft(id) => AfterDeleteRooms(rooms, [id])
    case Cleanup(_, ids) => AfterDeleteRooms(rooms, ids)
  }

  // ----- call capacity

  /** A presence report that refreshes a reservation whose lease has lapsed. */
  predicate RefreshesLapsed(rooms: Rooms, op: ServiceOp, now: int) {
    op.Presence? && Active(rooms, op.id, now, PRESENCE_GRACE_MS) && rooms[op.id].call.Some? && !Counted(rooms[op.id], now)
  }

  lemma {:induction false} ReleaseCountsNoMore(rooms: Rooms, ids: seq<RoomId>, now: int)
    requires LEASE_MS <= now
    ensures CountedCalls(AfterRelease(rooms, ids, now).0, now) <= CountedCalls(rooms, now)
    decreases |ids|
  {
    if ids != [] {
      var next := AfterReleaseOne(rooms, ids[0], now);
      ReleaseCountsNoMore(next, ids[1..], now);
      assert CountedCalls(next, now) <= CountedCalls(rooms, now);
    }
  }

  lemma {:induction false} DeleteKeepsTheRest(rooms: Rooms, ids: seq<RoomId>)
    ensures AfterDeleteRooms(rooms, ids).0 == rooms - (set id | id in ids)
    decreases |ids|
  {
    if ids == [] {
      assert rooms - (set id | id in ids) == rooms;
    } else {
      DeleteKeepsTheRest(rooms - {ids[0]}, ids[1..]);
      assert rooms - (set id | id in ids) == (rooms - {ids[0]}) - (set id | id in ids[1..]);
    }
  }

  /** One operation adds at most its own call, and only a free slot or a lapsed refresh. */
  lemma StepCounts(rooms: Rooms, op: ServiceOp, now: int, limit: nat)
    requires LEASE_MS <= now && CanServe(rooms, op, now)
    ensures var before, after := CountedCalls(rooms, now), CountedCalls(Serve(rooms, op, now, limit).0, now);
      if RefreshesLapsed(rooms, op, now) || (op.Activate? && ActivationOf(rooms, op.id, now, limit).Reserved?)
      then after == before + {op.id} && op.id !in before && |after| == |before| + 1
      else after <= before && |after| <= |before|
  {
    var before, after := CountedCalls(rooms, now), CountedCalls(Serve(rooms, op, now, limit).0, now);
    if op.Release? {
      ReleaseCountsNoMore(rooms, op.ids, now);
    } else if op.CancelDraft? {
      DeleteKeepsTheRest(rooms, [op.id]);
    } else if op.Cleanup? {
      DeleteKeepsTheRest(rooms, op.ids);
    } else if RefreshesLapsed(rooms, op, now) || (op.Activate? && ActivationOf(rooms, op.id, now, limit).Reserved?) {
      assert after == before + {op.id};
    } else {
      assert after <= before;
    }
    if after <= before {
      SubsetSize(after, before);
    }
  }

  /** Calls only stop counting as time passes. */
  lemma TimeCountsNoMore(rooms: Rooms, now: int, later: int)
    requires now <= later
    ensures CountedCalls(rooms, later) <= CountedCalls(rooms, now)
  {
  }

  datatype Timed = Timed(op: ServiceOp, now: int)

  ghost predicate LegalService(rooms: Rooms, ops: seq<Timed>, now: int, limit: nat)
    decreases |ops|
  {
    ops == [] || (
      && now <= ops[0].now && LEASE_MS <= ops[0].now && CanServe(rooms, ops[0].op, ops[0].now)
      && LegalService(Serve(rooms, ops[0].op, ops[0].now, limit).0, ops[1..], ops[0].now, limit))
  }

  function RunService(rooms: Rooms, ops: seq<Timed>, limit: nat): Rooms
    decreases |ops|
  {
    if ops == [] then rooms else RunService(Serve(rooms, ops[0].op, ops[0].now, limit).0, ops[1..], limit)
  }

  function LapsedRefreshes(rooms: Rooms, ops: seq<Timed>, limit: nat): nat
    decreases |ops|
  {
    if ops == [] then 0
    else (if RefreshesLapsed(rooms, ops[0].op, ops[0].now) then 1 else 0)
         + LapsedRefreshes(Serve(rooms, ops[0].op, ops[0].now, limit).0, ops[1..], limit)
  }

  function EndOf(ops: seq<Timed>, now: int): int {
    if ops == [] then now else ops[|ops| - 1].now
  }

  /**
   Over every run, at every later instant, the counted calls exceed the limit by at
   most the number of lapsed reservations that presence reports have refreshed.
   */
  lemma {:induction false} CapacityBound(rooms: Rooms, ops: seq<Timed>, now: int, later: int, limit: nat, excess: nat)
    requires LegalService(rooms, ops, now, limit) && EndOf(ops, now) <= later
    requires |CountedCalls(rooms, now)| <= limit + excess
    ensures |CountedCalls(RunService(rooms, ops, limit), later)| <= limit + excess + LapsedRefreshes(rooms, ops, limit)
    decreases |ops|
  {
    if ops == [] {
      TimeCountsNoMore(rooms, now, later);
      SubsetSize(CountedCalls(rooms, later), CountedCalls(rooms, now));
    } else {
      var op, at := ops[0].op, ops[0].now;
      TimeCountsNoMore(rooms, now, at);
      SubsetSize(CountedCalls(rooms, at), CountedCalls(rooms, now));
      StepCounts(rooms, op, at, limit);
      var next := Serve(rooms, op, at, limit).0;
      var more := if RefreshesLapsed(rooms, op, at) then 1 else 0;
      assert EndOf(ops[1..], at) == EndOf(ops, now);
      CapacityBound(next, ops[1..], at, later, limit, excess + more);
    }
  }

  /** The limit holds in every run whose presence reports refresh only unlapsed leases. */
  lemma CapacityHolds(ops: seq<Timed>, start: int, later: int, limit: nat)
    requires LegalService(map[], ops, start, limit) && EndOf(ops, start) <= later
    requires LapsedRefreshes(map[], ops, limit) == 0
    ensures |CountedCalls(RunService(map[], ops, limit), later)| <= limit
  {
    assert CountedCalls(map[], start) == {};
    CapacityBound(map[], ops, start, later, limit, 0);
  }

  /** For one presence report: the limit survives exactly if the call was counted or a slot was free. */
  lemma PresenceKeepsLimitIff(rooms: Rooms, id: RoomId, now: int, limit: nat)
    requires LEASE_MS <= now && |CountedCalls(rooms, now)| <= limit
    ensures |CountedCalls(AfterPresence(rooms, id, now), now)| <= limit
      <==> !RefreshesLapsed(rooms, Presence(id), now) || |CountedCalls(rooms, now)| < limit
  {
    StepCounts(rooms, Presence(id), now, limit);
  }

  /** A run that exceeds a limit of one: the first call's lease lapses, a second call reserves, the first is seen occupied. */
  lemma LapsedRefreshExceedsLimit(key1: string, key2: string)
    ensures var ops := [Timed(CreateRoom(1, Plain, Some(key1)), LEASE_MS), Timed(CreateRoom(2, Plain, Some(key2)), LEASE_MS),
                        Timed(Activate(1), LEASE_MS), Timed(Activate(2), 2 * LEASE_MS), Timed(Presence(1), 2 * LEASE_MS)];
      LegalService(map[], ops, 0, 1) && |CountedCalls(RunService(map[], ops, 1), 2 * LEASE_MS)| == 2
  {
    var t := LEASE_MS;
    var ops := [Timed(CreateRoom(1, Plain, Some(key1)), t), Timed(CreateRoom(2, Plain, Some(key2)), t),
                Timed(Activate(1), t), Timed(Activate(2), 2 * t), Timed(Presence(1), 2 * t)];
    var r1: Rooms := map[1 := Room(t + IDLE_TTL_MS, Plain, Some(Call(key1, 1, INACTIVE_AT)))];
    var r2 := r1[2 := Room(t + IDLE_TTL_MS, Plain, Some(Call(key2, 1, INACTIVE_AT)))];
    assert CountedCalls(r2, t) == {};
    var r3 := AfterActivate(r2, 1, t, 1);
    assert CountedCalls(r3, 2 * t) == {};
    var r4 := AfterActivate(r3, 2, 2 * t, 1);
    var r5 := AfterPresence(r4, 1, 2 * t);
    assert CountedCalls(r5, 2 * t) == {1, 2};
    assert RunService(r4, ops[4..], 1) == r5;
    assert RunService(r3, ops[3..], 1) == r5 && ops[3..][1..] == ops[4..];
    assert RunService(r2, ops[2..], 1) == r5 && ops[2..][1..] == ops[3..];
    assert RunService(r1, ops[1..], 1) == r5 && ops[1..][1..] == ops[2..];
    assert LegalService(r3, ops[3..], t, 1);
    assert LegalService(r1, ops[1..], t, 1);
  }
}
