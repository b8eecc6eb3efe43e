/**
 The server's reassembly of chunks: several messages at once, their chunks in any order, repeated or expired.
 Timers are the step Expires at any moment.
 */
module Reassembly {
  import opened BoardFrames
  import opened BoardRoundTrip
  import opened Chunks
  import opened Containers
  import opened Leb128
  import opened Wrappers

  const MAX_ACTIVE_ASSEMBLIES := 2
  const MAX_BUFFERED_CHUNK_BYTES := MAX_REASSEMBLED_BYTES * MAX_ACTIVE_ASSEMBLIES

  datatype Assembly = Assembly(innerType: int, chunkCount: nat, totalLength: int, chunks: seq<Option<Bytes>>, receivedBytes: nat)

  type Assemblies = map<Bytes, Assembly>

  datatype Fault =
    | TooManyAssemblies | MetadataChanged | DuplicateDiffers | OverLimit | WrongLength | NotAFrame(error: ErrorCode) | WrongType

  type Pushed = Result<Option<Bytes>, Fault>

  // ----- one chunk

  function NoChunks(n: nat): seq<Option<Bytes>> {
    seq(n, _ => None)
  }

  /** The assembly a chunk belongs to, a fresh one if there is none. */
  function AssemblyFor(assemblies: Assemblies, f: Frame): Assembly
    requires f.Chunk? && f.chunkCount >= 0
  {
    if f.messageId in assemblies then assemblies[f.messageId]
    else Assembly(f.innerType, f.chunkCount, f.totalLength, NoChunks(f.chunkCount), 0)
  }

  predicate AllPresent(chunks: seq<Option<Bytes>>) {
    forall i | 0 <= i < |chunks| :: chunks[i].Some?
  }

  function Values(chunks: seq<Option<Bytes>>): (values: seq<Bytes>)
    requires AllPresent(chunks)
  {
    seq(|chunks|, i requires 0 <= i < |chunks| => chunks[i].value)
  }

  function WithChunk(a: Assembly, f: Frame): Assembly
    requires f.Chunk? && 0 <= f.chunkIndex < |a.chunks|
  {
    a.(chunks := a.chunks[f.chunkIndex := Some(f.payload)], receivedBytes := a.receivedBytes + |f.payload|)
  }

  /** What a complete assembly is worth. */
  function Finished(a: Assembly): Pushed
    requires AllPresent(a.chunks)
  {
    var bytes := Joined(Values(a.chunks));
    var frame := Decode(bytes);
    if frame.Err? then Err(NotAFrame(frame.error))
    else if TypeOf(frame.value) != a.innerType then Err(WrongType)
    else Ok(Some(bytes))
  }

  datatype Outcome = Outcome(assemblies: Assemblies, buffered: int, answer: Pushed)

  /** The assemblies and the buffer after a chunk, and its answer. */
  function PushChunk(assemblies: Assemblies, buffered: int, f: Frame): Outcome
    requires f.Chunk? && CheckChunk(f).Ok? && WellFormed(assemblies)
  {
    var a := AssemblyFor(assemblies, f);
    if f.messageId !in assemblies && |assemblies| >= MAX_ACTIVE_ASSEMBLIES then Outcome(assemblies, buffered, Err(TooManyAssemblies))
    else if a.innerType != f.innerType || a.chunkCount != f.chunkCount || a.totalLength != f.totalLength then
      Outcome(assemblies, buffered, Err(MetadataChanged))
    else if a.chunks[f.chunkIndex].Some? then
      Outcome(assemblies, buffered, if a.chunks[f.chunkIndex].value != f.payload then Err(DuplicateDiffers) else Ok(None))
    else AddChunk(assemblies, buffered, f, WithChunk(a, f))
  }

  function AddChunk(assemblies: Assemblies, buffered: int, f: Frame, a: Assembly): Outcome
    requires f.Chunk?
  {
    var held, total := assemblies[f.messageId := a], buffered + |f.payload|;
    if a.receivedBytes > a.totalLength || total > MAX_BUFFERED_CHUNK_BYTES then Outcome(held, total, Err(OverLimit))
    else if !AllPresent(a.chunks) then Outcome(held, total, Ok(None))
    else if a.receivedBytes != a.totalLength then Outcome(held, total, Err(WrongLength))
    else Outcome(assemblies - {f.messageId}, total - a.receivedBytes, Finished(a))
  }

  predicate WellFormed(assemblies: Assemblies) {
    forall id | id in assemblies :: |assemblies[id].chunks| == assemblies[id].chunkCount
  }

  // ----- what is buffered

  function SizeOf(chunk: Option<Bytes>): nat {
    if chunk.Some? then |chunk.value| else 0
  }

  function Received(chunks: seq<Option<Bytes>>): nat {
    if chunks == [] then 0 else SizeOf(chunks[0]) + Received(chunks[1..])
  }

  lemma {:induction false} ReceivedNothing(n: nat)
    ensures Received(NoChunks(n)) == 0
  {
    if n > 0 {
      assert NoChunks(n)[1..] == NoChunks(n - 1);
      ReceivedNothing(n - 1);
    }
  }

  lemma {:induction false} ReceivedOneMore(chunks: seq<Option<Bytes>>, i: nat, payload: Bytes)
    requires i < |chunks| && chunks[i].None?
    ensures Received(chunks[i := Some(payload)]) == Received(chunks) + |payload|
    decreases i
  {
    var next := chunks[i := Some(payload)];
    if i == 0 {
      assert next[1..] == chunks[1..];
    } else {
      assert next[1..] == chunks[1..][i - 1 := Some(payload)];
      ReceivedOneMore(chunks[1..], i - 1, payload);
    }
  }

  /** Chunks of a known message: what has been received is at most all of it, and all of it when complete. */
  lemma {:induction false} ReceivedOf(chunks: seq<Option<Bytes>>, parts: seq<Bytes>)
    requires |chunks| == |parts| && forall i | 0 <= i < |parts| :: chunks[i] == None || chunks[i] == Some(parts[i])
    ensures Received(chunks) <= |Joined(parts)|
    ensures AllPresent(chunks) ==> Received(chunks) == |Joined(parts)| && Values(chunks) == parts
    decreases |parts|
  {
    if parts != [] {
      JoinedFirst(parts);
      ReceivedOf(chunks[1..], parts[1..]);
      if AllPresent(chunks) {
        assert AllPresent(chunks[1..]);
      }
    }
  }

  ghost function SumReceived(assemblies: Assemblies): nat {
    if assemblies == map[] then 0
    else
      var id :| id in assemblies;
      assemblies[id].receivedBytes + SumReceived(assemblies - {id})
  }

  lemma {:induction false} SumSplits(assemblies: Assemblies, id: Bytes)
    requires id in assemblies
    ensures SumReceived(assemblies) == assemblies[id].receivedBytes + SumReceived(assemblies - {id})
    decreases |assemblies|
  {
    var other :| other in assemblies && SumReceived(assemblies) == assemblies[other].receivedBytes + SumReceived(assemblies - {other});
    if other != id {
      SumSplits(assemblies - {other}, id);
      SumSplits(assemblies - {id}, other);
      assert assemblies - {other} - {id} == assemblies - {id} - {other};
    }
  }

  lemma {:induction false} SumBound(assemblies: Assemblies)
    requires forall id | id in assemblies :: assemblies[id].receivedBytes <= MAX_REASSEMBLED_BYTES
    ensures SumReceived(assemblies) <= |assemblies| * MAX_REASSEMBLED_BYTES
    decreases |assemblies|
  {
    if assemblies != map[] {
      var id :| id in assemblies;
      SumSplits(assemblies, id);
      SumBound(assemblies - {id});
      assert |assemblies - {id}| == |assemblies| - 1;
    }
  }

  lemma SumUpdated(assemblies: Assemblies, id: Bytes, a: Assembly)
    ensures SumReceived(assemblies[id := a]) == SumReceived(assemblies - {id}) + a.receivedBytes
  {
    SumSplits(assemblies[id := a], id);
    assert assemblies[id := a] - {id} == assemblies - {id};
  }

  lemma SumRemoved(assemblies: Assemblies, id: Bytes)
    ensures SumReceived(assemblies - {id}) == SumReceived(assemblies) - (if id in assemblies then assemblies[id].receivedBytes else 0)
  {
    if id in assemblies {
      SumSplits(assemblies, id);
    } else {
      assert assemblies - {id} == assemblies;
    }
  }

  ghost predicate ValidAssembly(a: Assembly) {
    && |a.chunks| == a.chunkCount && a.receivedBytes == Received(a.chunks) <= a.totalLength <= MAX_REASSEMBLED_BYTES
    && !AllPresent(a.chunks)
  }

  /** Every assembly is incomplete and within its total, and the buffer counts exactly what is held. */
  ghost predicate Inv(assemblies: Assemblies, buffered: int) {
    && |assemblies| <= MAX_ACTIVE_ASSEMBLIES && buffered == SumReceived(assemblies)
    && forall id | id in assemblies :: ValidAssembly(assemblies[id])
  }

  lemma FreshIsValid(f: Frame)
    requires f.Chunk? && CheckChunk(f).Ok?
    ensures ValidAssembly(AssemblyFor(map[], f))
  {
    ReceivedNothing(f.chunkCount);
    assert NoChunks(f.chunkCount)[0].None?;
  }

  lemma ChunkAdds(a: Assembly, f: Frame)
    requires ValidAssembly(a) && f.Chunk? && 0 <= f.chunkIndex < |a.chunks| && a.chunks[f.chunkIndex].None?
    ensures WithChunk(a, f).receivedBytes == Received(WithChunk(a, f).chunks) == Received(a.chunks) + |f.payload|
  {
    ReceivedOneMore(a.chunks, f.chunkIndex, f.payload);
  }

  lemma KeyAdded(assemblies: Assemblies, id: Bytes, a: Assembly)
    ensures |assemblies[id := a]| == if id in assemblies then |assemblies| else |assemblies| + 1
  {
    var held := assemblies[id := a];
    assert held.Keys == assemblies.Keys + {id};
    assert |held| == |held.Keys| && |assemblies| == |assemblies.Keys|;
  }

  lemma KeyRemoved(assemblies: Assemblies, id: Bytes)
    ensures |assemblies - {id}| <= |assemblies|
  {
    var left := assemblies - {id};
    assert left.Keys == assemblies.Keys - {id};
    assert |left| == |left.Keys| && |assemblies| == |assemblies.Keys|;
  }

  /** The bytes an id has so far. */
  function ReceivedFor(assemblies: Assemblies, id: Bytes): nat {
    if id in assemblies then assemblies[id].receivedBytes else 0
  }

  /** Two messages within their totals always fit the buffer. */
  lemma BufferHasRoom(assemblies: Assemblies, buffered: int, id: Bytes, more: nat, a: Assembly)
    requires Inv(assemblies, buffered) && (id in assemblies || |assemblies| < MAX_ACTIVE_ASSEMBLIES)
    requires a.receivedBytes == ReceivedFor(assemblies, id) + more && a.receivedBytes <= MAX_REASSEMBLED_BYTES
    ensures buffered + more == SumReceived(assemblies[id := a]) <= MAX_BUFFERED_CHUNK_BYTES
    ensures |assemblies[id := a]| <= MAX_ACTIVE_ASSEMBLIES
  {
    SumUpdated(assemblies, id, a);
    SumRemoved(assemblies, id);
    KeyAdded(assemblies, id, a);
    SumBound(assemblies[id := a]);
  }

  lemma HeldKeepsInv(assemblies: Assemblies, buffered: int, id: Bytes, more: nat, a: Assembly)
    requires Inv(assemblies, buffered) && (id in assemblies || |assemblies| < MAX_ACTIVE_ASSEMBLIES)
    requires a.receivedBytes == ReceivedFor(assemblies, id) + more && ValidAssembly(a)
    ensures Inv(assemblies[id := a], buffered + more)
  {
    BufferHasRoom(assemblies, buffered, id, more, a);
  }

  lemma ExpiryKeepsInv(assemblies: Assemblies, buffered: int, id: Bytes)
    requires Inv(assemblies, buffered)
    ensures Inv(assemblies - {id}, buffered - ReceivedFor(assemblies, id))
  {
    SumRemoved(assemblies, id);
    KeyRemoved(assemblies, id);
  }

  lemma KnownAssemblyIsValid(assemblies: Assemblies, buffered: int, f: Frame)
    requires Inv(assemblies, buffered) && f.Chunk? && CheckChunk(f).Ok?
    ensures ValidAssembly(AssemblyFor(assemblies, f))
  {
    FreshIsValid(f);
  }

  ghost predicate Adds(assemblies: Assemblies, buffered: int, f: Frame, a: Assembly) {
    && Inv(assemblies, buffered) && f.Chunk? && a.totalLength <= MAX_REASSEMBLED_BYTES && |a.chunks| == a.chunkCount
    && (f.messageId in assemblies || |assemblies| < MAX_ACTIVE_ASSEMBLIES)
    && a.receivedBytes == Received(a.chunks) == ReceivedFor(assemblies, f.messageId) + |f.payload|
  }

  lemma BufferIsNeverTheReason(assemblies: Assemblies, buffered: int, f: Frame, a: Assembly)
    requires Adds(assemblies, buffered, f, a)
    ensures AddChunk(assemblies, buffered, f, a).answer == Err(OverLimit) <==> a.receivedBytes > a.totalLength
  {
    if a.receivedBytes <= a.totalLength {
      BufferHasRoom(assemblies, buffered, f.messageId, |f.payload|, a);
    }
  }

  lemma AddKeepsInv(assemblies: Assemblies, buffered: int, f: Frame, a: Assembly)
    requires Adds(assemblies, buffered, f, a) && AddChunk(assemblies, buffered, f, a).answer.Ok?
    ensures var o := AddChunk(assemblies, buffered, f, a); Inv(o.assemblies, o.buffered)
  {
    var id := f.messageId;
    if AllPresent(a.chunks) {
      assert Inv(assemblies - {id}, buffered + |f.payload| - a.receivedBytes) by {
        ExpiryKeepsInv(assemblies, buffered, id);
      }
    } else {
      assert Inv(assemblies[id := a], buffered + |f.payload|) by {
        HeldKeepsInv(assemblies, buffered, id, |f.payload|, a);
      }
    }
  }

  /** Every accepted chunk keeps the books, and the limit on the buffer is never what refuses one. */
  lemma PushKeepsInv(assemblies: Assemblies, buffered: int, f: Frame)
    requires Inv(assemblies, buffered) && f.Chunk? && CheckChunk(f).Ok?
    ensures var o := PushChunk(assemblies, buffered, f);
      && (o.answer == Err(OverLimit) ==> AssemblyFor(assemblies, f).receivedBytes + |f.payload| > f.totalLength)
      && (o.answer.Ok? ==> Inv(o.assemblies, o.buffered))
  {
    var a := AssemblyFor(assemblies, f);
    KnownAssemblyIsValid(assemblies, buffered, f);
    if (f.messageId in assemblies || |assemblies| < MAX_ACTIVE_ASSEMBLIES) && a.innerType == f.innerType
       && a.chunkCount == f.chunkCount && a.totalLength == f.totalLength && a.chunks[f.chunkIndex].None?
    {
      ChunkAdds(a, f);
      BufferIsNeverTheReason(assemblies, buffered, f, WithChunk(a, f));
      if PushChunk(assemblies, buffered, f).answer.Ok? {
        AddKeepsInv(assemblies, buffered, f, WithChunk(a, f));
      }
    }
  }

  // ----- the reassembler

  method JoinChunks(chunks: seq<Option<Bytes>>, totalLength: nat) returns (result: Bytes)
    requires AllPresent(chunks) && |Joined(Values(chunks))| == totalLength
    ensures result == Joined(Values(chunks))
  {
    var buffer := new Byte[totalLength];
    var offset := 0;
    ghost var parts := Values(chunks);
    for index := 0 to |chunks|
      invariant offset == |Joined(parts[..index])| <= buffer.Length && buffer[..offset] == Joined(parts[..index])
    {
      JoinedStep(parts, index);
      JoinedSplits(parts, index + 1);
      var chunk := chunks[index].value;
      Copy(chunk, buffer, offset);
      assert buffer[..offset + |chunk|] == buffer[..offset] + buffer[offset..offset + |chunk|];
      offset := offset + |chunk|;
    }
    assert parts[..|parts|] == parts && buffer[..offset] == buffer[..];
    return buffer[..];
  }

  class ChunkReassembler {
    var assemblies: Assemblies
    var bufferedBytes: int

    constructor ()
      ensures assemblies == map[] && bufferedBytes == 0 && Inv(assemblies, bufferedBytes)
    {
      assemblies, bufferedBytes := map[], 0;
    }

    method Push(f: Frame) returns (r: Pushed)
      requires Inv(assemblies, bufferedBytes) && f.Chunk? && CheckChunk(f).Ok?
      modifies this
      ensures Outcome(assemblies, bufferedBytes, r) == PushChunk(old(assemblies), old(bufferedBytes), f)
      ensures r.Ok? ==> Inv(assemblies, bufferedBytes)
    {
      PushKeepsInv(assemblies, bufferedBytes, f);
      KnownAssemblyIsValid(assemblies, bufferedBytes, f);
      if f.messageId !in assemblies && |assemblies| >= MAX_ACTIVE_ASSEMBLIES {
        return Err(TooManyAssemblies);
      }
      var assembly := AssemblyFor(assemblies, f);
      if f.messageId in assemblies
         && (assembly.innerType != f.innerType || assembly.chunkCount != f.chunkCount || assembly.totalLength != f.totalLength)
      {
        return Err(MetadataChanged);
      }
      var existing := assembly.chunks[f.chunkIndex];
      if existing.Some? {
        return if existing.value != f.payload then Err(DuplicateDiffers) else Ok(None);
      }
      ChunkAdds(assembly, f);
      r := Add(f, WithChunk(assembly, f));
    }

    method Add(f: Frame, assembly: Assembly) returns (r: Pushed)
      requires f.Chunk? && assembly.receivedBytes == Received(assembly.chunks)
      modifies this
      ensures Outcome(assemblies, bufferedBytes, r) == AddChunk(old(assemblies), old(bufferedBytes), f, assembly)
    {
      ghost var before := assemblies;
      assemblies := assemblies[f.messageId := assembly];
      bufferedBytes := bufferedBytes + |f.payload|;
      if assembly.receivedBytes > assembly.totalLength || bufferedBytes > MAX_BUFFERED_CHUNK_BYTES {
        return Err(OverLimit);
      }
      if !AllPresent(assembly.chunks) {
        return Ok(None);
      }
      if assembly.receivedBytes != assembly.totalLength {
        return Err(WrongLength);
      }
      assemblies := assemblies - {f.messageId};
      assert assemblies == before - {f.messageId};
      bufferedBytes := bufferedBytes - assembly.receivedBytes;
      ReceivedOf(assembly.chunks, Values(assembly.chunks));
      var result := JoinChunks(assembly.chunks, assembly.totalLength);
      var decoded := Decode(result);
      if decoded.Err? {
        return Err(NotAFrame(decoded.error));
      }
      if TypeOf(decoded.value) != assembly.innerType {
        return Err(WrongType);
      }
      return Ok(Some(result));
    }

    /** The timer of an assembly. */
    method Expire(id: Bytes)
      requires Inv(assemblies, bufferedBytes)
      modifies this
      ensures assemblies == old(assemblies) - {id} && Inv(assemblies, bufferedBytes)
    {
      ExpiryKeepsInv(assemblies, bufferedBytes, id);
      if id !in assemblies {
        assert assemblies - {id} == assemblies;
        return;
      }
      bufferedBytes := bufferedBytes - assemblies[id].receivedBytes;
      assemblies := assemblies - {id};
    }
  }

  // ----- runs

  datatype Event = Arrives(frame: Frame) | Expires(id: Bytes)

  datatype State = State(assemblies: Assemblies, buffered: int)

  /** A chunk that is answered without a fault, or an expiry; a fault ends the connection. */
  predicate Possible(s: State, e: Event) {
    WellFormed(s.assemblies) &&
    (e.Arrives? ==> e.frame.Chunk? && CheckChunk(e.frame).Ok? && PushChunk(s.assemblies, s.buffered, e.frame).answer.Ok?)
  }

  function Next(s: State, e: Event): State
    requires Possible(s, e)
  {
    if e.Arrives? then
      var o := PushChunk(s.assemblies, s.buffered, e.frame);
      State(o.assemblies, o.buffered)
    else if e.id in s.assemblies then State(s.assemblies - {e.id}, s.buffered - s.assemblies[e.id].receivedBytes)
    else s
  }

  predicate Legal(events: seq<Event>)
    decreases |events|, 0
  {
    events == [] || (Legal(events[..|events| - 1]) && Possible(StateAfter(events[..|events| - 1]), events[|events| - 1]))
  }

  function StateAfter(events: seq<Event>): State
    requires Legal(events)
    decreases |events|, 1
  {
    if events == [] then State(map[], 0) else Next(StateAfter(events[..|events| - 1]), events[|events| - 1])
  }

  lemma {:induction false} RunKeepsInv(events: seq<Event>)
    requires Legal(events)
    ensures var s := StateAfter(events); Inv(s.assemblies, s.buffered)
    decreases |events|
  {
    if events != [] {
      var before, e := StateAfter(events[..|events| - 1]), events[|events| - 1];
      RunKeepsInv(events[..|events| - 1]);
      if e.Arrives? {
        PushKeepsInv(before.assemblies, before.buffered, e.frame);
      } else if e.id in before.assemblies {
        ExpiryKeepsInv(before.assemblies, before.buffered, e.id);
      }
    }
  }

  // ----- what comes out was sent

  /** The chunk that an assembly holds at one index. */
  function HeldChunk(id: Bytes, a: Assembly, i: int): Frame
    requires 0 <= i < |a.chunks| && a.chunks[i].Some?
  {
    Chunk(id, a.innerType, i, a.chunkCount, a.totalLength, a.chunks[i].value)
  }

  ghost predicate AllArrived(events: seq<Event>, id: Bytes, a: Assembly) {
    forall i | 0 <= i < |a.chunks| && a.chunks[i].Some? :: Arrives(HeldChunk(id, a, i)) in events
  }

  lemma ArrivedLater(events: seq<Event>, e: Event, id: Bytes, a: Assembly)
    requires AllArrived(events, id, a)
    ensures AllArrived(events + [e], id, a)
  {
  }

  lemma ChunkArrived(events: seq<Event>, a: Assembly, f: Frame)
    requires f.Chunk? && 0 <= f.chunkIndex < |a.chunks| && AllArrived(events, f.messageId, a)
    requires a.innerType == f.innerType && a.chunkCount == f.chunkCount && a.totalLength == f.totalLength
    ensures AllArrived(events + [Arrives(f)], f.messageId, WithChunk(a, f))
  {
    var b := WithChunk(a, f);
    forall i | 0 <= i < |b.chunks| && b.chunks[i].Some?
      ensures Arrives(HeldChunk(f.messageId, b, i)) in events + [Arrives(f)]
    {
      if i == f.chunkIndex {
        assert HeldChunk(f.messageId, b, i) == f;
      } else {
        assert HeldChunk(f.messageId, b, i) == HeldChunk(f.messageId, a, i);
      }
    }
  }

  lemma ChunkStep(events: seq<Event>, assemblies: Assemblies, buffered: int, f: Frame)
    requires Inv(assemblies, buffered) && f.Chunk? && CheckChunk(f).Ok? && PushChunk(assemblies, buffered, f).answer.Ok?
    requires f.messageId in assemblies ==> AllArrived(events, f.messageId, assemblies[f.messageId])
    ensures var after := PushChunk(assemblies, buffered, f).assemblies;
      f.messageId in after ==> AllArrived(events + [Arrives(f)], f.messageId, after[f.messageId])
  {
    var a := AssemblyFor(assemblies, f);
    KnownAssemblyIsValid(assemblies, buffered, f);
    ChunkArrived(events, a, f);
    ArrivedLater(events, Arrives(f), f.messageId, a);
  }

  predicate IsFor(e: Event, id: Bytes) {
    e.Arrives? && e.frame.Chunk? && e.frame.messageId == id
  }

  lemma OthersLeaveItAlone(s: State, e: Event, id: Bytes)
    requires Possible(s, e) && !IsFor(e, id) && e != Expires(id)
    ensures id in Next(s, e).assemblies <==> id in s.assemblies
    ensures id in s.assemblies ==> Next(s, e).assemblies[id] == s.assemblies[id]
  {
  }

  lemma {:induction false} HeldArrived(events: seq<Event>, id: Bytes)
    requires Legal(events) && id in StateAfter(events).assemblies
    ensures AllArrived(events, id, StateAfter(events).assemblies[id])
    decreases |events|
  {
    var prefix, e := events[..|events| - 1], events[|events| - 1];
    var before := StateAfter(prefix);
    assert events == prefix + [e];
    if id in before.assemblies {
      HeldArrived(prefix, id);
    }
    if IsFor(e, id) {
      RunKeepsInv(prefix);
      ChunkStep(prefix, before.assemblies, before.buffered, e.frame);
    } else {
      OthersLeaveItAlone(before, e, id);
      ArrivedLater(prefix, e, id, before.assemblies[id]);
    }
  }

  /** Only a complete assembly of the right length has a result. */
  lemma ResultIsComplete(assemblies: Assemblies, buffered: int, f: Frame, bytes: Bytes)
    requires Inv(assemblies, buffered) && f.Chunk? && CheckChunk(f).Ok?
    requires PushChunk(assemblies, buffered, f).answer == Ok(Some(bytes))
    ensures var a := AssemblyFor(assemblies, f);
      && a.innerType == f.innerType && a.chunkCount == f.chunkCount && a.totalLength == f.totalLength && |a.chunks| == a.chunkCount
      && var b := WithChunk(a, f);
         && AllPresent(b.chunks) && Joined(Values(b.chunks)) == bytes && b.receivedBytes == f.totalLength == Received(b.chunks)
         && Decode(bytes).Ok? && TypeOf(Decode(bytes).value) == f.innerType
  {
    KnownAssemblyIsValid(assemblies, buffered, f);
    ChunkAdds(AssemblyFor(assemblies, f), f);
  }

  lemma PartsArrived(events: seq<Event>, f: Frame, b: Assembly)
    requires f.Chunk? && AllPresent(b.chunks) && AllArrived(events, f.messageId, b)
    requires b.innerType == f.innerType && b.chunkCount == f.chunkCount && b.totalLength == f.totalLength
    ensures forall i | 0 <= i < |b.chunks| :: Arrives(f.(chunkIndex := i, payload := Values(b.chunks)[i])) in events
  {
    forall i | 0 <= i < |b.chunks|
      ensures Arrives(f.(chunkIndex := i, payload := Values(b.chunks)[i])) in events
    {
      assert HeldChunk(f.messageId, b, i) == f.(chunkIndex := i, payload := Values(b.chunks)[i]);
    }
  }

  /** After any run: bytes that come out are, in the order of the indices, payloads that arrived under one id and one total. */
  lemma ResultArrived(events: seq<Event>, f: Frame, bytes: Bytes) returns (parts: seq<Bytes>)
    requires Legal(events) && Possible(StateAfter(events), Arrives(f))
    requires PushChunk(StateAfter(events).assemblies, StateAfter(events).buffered, f).answer == Ok(Some(bytes))
    ensures |parts| == f.chunkCount && Joined(parts) == bytes && |bytes| == f.totalLength
    ensures forall i | 0 <= i < |parts| :: Arrives(f.(chunkIndex := i, payload := parts[i])) in events + [Arrives(f)]
    ensures Decode(bytes).Ok? && TypeOf(Decode(bytes).value) == f.innerType
  {
    var s := StateAfter(events);
    var a := AssemblyFor(s.assemblies, f);
    RunKeepsInv(events);
    ResultIsComplete(s.assemblies, s.buffered, f, bytes);
    if f.messageId in s.assemblies {
      HeldArrived(events, f.messageId);
    }
    ChunkArrived(events, a, f);
    var b := WithChunk(a, f);
    parts := Values(b.chunks);
    ReceivedOf(b.chunks, parts);
    PartsArrived(events + [Arrives(f)], f, b);
  }

  // ----- what was sent comes out, in whatever order it arrives

  function Indices(n: nat): (indices: set<int>)
    ensures forall i :: i in indices <==> 0 <= i < n
  {
    if n == 0 then {} else Indices(n - 1) + {n - 1}
  }

  /** The indices that arrived under an id. */
  function Delivered(events: seq<Event>, id: Bytes): set<int>
    decreases |events|
  {
    if events == [] then {} else
      var e := events[|events| - 1];
      Delivered(events[..|events| - 1], id) + (if IsFor(e, id) then {e.frame.chunkIndex} else {})
  }

  /** Under this id only the sender's chunks arrive, and their timer does not run out. */
  ghost predicate OnlyFrom(events: seq<Event>, frames: seq<Frame>, id: Bytes) {
    forall e | e in events ::
      && e != Expires(id)
      && (IsFor(e, id) ==> 0 <= e.frame.chunkIndex < |frames| && e.frame == frames[e.frame.chunkIndex])
  }

  ghost predicate Holding(a: Assembly, frames: seq<Frame>, delivered: set<int>)
    requires AllChunks(frames)
  {
    && |a.chunks| == |frames|
    && forall i | 0 <= i < |frames| :: a.chunks[i] == if i in delivered then Some(frames[i].payload) else None
  }

  /** What has been delivered is what the assembly holds. */
  ghost predicate Holds(assemblies: Assemblies, frames: seq<Frame>, encoded: Bytes, id: Bytes, innerType: int, delivered: set<int>)
    requires AllChunks(frames)
  {
    if delivered == {} then id !in assemblies
    else
      && id in assemblies && assemblies[id].innerType == innerType && assemblies[id].chunkCount == |frames|
      && assemblies[id].totalLength == |encoded| && Holding(assemblies[id], frames, delivered)
  }

  lemma AssemblyHolds(assemblies: Assemblies, frames: seq<Frame>, encoded: Bytes, id: Bytes, innerType: int, delivered: set<int>, i: nat)
    requires IsChunking(frames, encoded, id, innerType) && i < |frames| && Holds(assemblies, frames, encoded, id, innerType, delivered)
    ensures var a := AssemblyFor(assemblies, frames[i]);
      && a.innerType == innerType && a.chunkCount == |frames| && a.totalLength == |encoded| && Holding(a, frames, delivered)
  {
  }

  lemma HoldingOneMore(a: Assembly, frames: seq<Frame>, delivered: set<int>, i: nat)
    requires AllChunks(frames) && i < |frames| && frames[i].chunkIndex == i && Holding(a, frames, delivered)
    ensures Holding(WithChunk(a, frames[i]), frames, delivered + {i})
  {
  }

  lemma CompleteIff(a: Assembly, frames: seq<Frame>, encoded: Bytes, id: Bytes, innerType: int, delivered: set<int>)
    requires IsChunking(frames, encoded, id, innerType) && Holding(a, frames, delivered) && delivered <= Indices(|frames|)
    ensures AllPresent(a.chunks) <==> delivered == Indices(|frames|)
    ensures Received(a.chunks) <= |encoded|
    ensures AllPresent(a.chunks) ==> Received(a.chunks) == |encoded| && Joined(Values(a.chunks)) == encoded
  {
    ReceivedOf(a.chunks, Payloads(frames));
    if AllPresent(a.chunks) {
      forall i | i in Indices(|frames|)
        ensures i in delivered
      {
        assert a.chunks[i].Some?;
      }
    }
  }

  /** The sender's frame, sent whole, would have been decoded. */
  ghost predicate IsFrame(encoded: Bytes, innerType: int) {
    Decode(encoded).Ok? && TypeOf(Decode(encoded).value) == innerType
  }

  /** Every frame that can be encoded is one. */
  lemma EncodedIsFrame(f: Frame)
    requires Check(f).Ok?
    ensures Encode(f).Ok? && IsFrame(Encode(f).value, TypeOf(f))
  {
    DecodeUndoesEncode(f);
  }

  lemma NewChunkArrives(assemblies: Assemblies, buffered: int, frames: seq<Frame>, encoded: Bytes, id: Bytes, innerType: int,
                        delivered: set<int>, i: nat)
    requires Inv(assemblies, buffered) && IsChunking(frames, encoded, id, innerType) && IsFrame(encoded, innerType)
    requires Holds(assemblies, frames, encoded, id, innerType, delivered) && delivered <= Indices(|frames|)
    requires i < |frames| && i !in delivered && (delivered != {} || |assemblies| < MAX_ACTIVE_ASSEMBLIES)
    ensures var o := PushChunk(assemblies, buffered, frames[i]);
      if delivered + {i} == Indices(|frames|) then o.answer == Ok(Some(encoded))
      else o.answer == Ok(None) && Holds(o.assemblies, frames, encoded, id, innerType, delivered + {i})
  {
    var f := frames[i];
    var a := AssemblyFor(assemblies, f);
    AssemblyHolds(assemblies, frames, encoded, id, innerType, delivered, i);
    KnownAssemblyIsValid(assemblies, buffered, f);
    ChunkAdds(a, f);
    HoldingOneMore(a, frames, delivered, i);
    CompleteIff(WithChunk(a, f), frames, encoded, id, innerType, delivered + {i});
    BufferIsNeverTheReason(assemblies, buffered, f, WithChunk(a, f));
  }

  lemma RepeatIsIgnored(assemblies: Assemblies, buffered: int, frames: seq<Frame>, encoded: Bytes, id: Bytes, innerType: int,
                        delivered: set<int>, i: nat)
    requires WellFormed(assemblies) && IsChunking(frames, encoded, id, innerType) && i < |frames| && i in delivered
    requires Holds(assemblies, frames, encoded, id, innerType, delivered)
    ensures PushChunk(assemblies, buffered, frames[i]) == Outcome(assemblies, buffered, Ok(None))
  {
    AssemblyHolds(assemblies, frames, encoded, id, innerType, delivered, i);
  }

  lemma ChunkProgress(assemblies: Assemblies, buffered: int, frames: seq<Frame>, encoded: Bytes, id: Bytes, innerType: int,
                      delivered: set<int>, i: nat)
    requires Inv(assemblies, buffered) && IsChunking(frames, encoded, id, innerType) && IsFrame(encoded, innerType)
    requires Holds(assemblies, frames, encoded, id, innerType, delivered) && delivered < Indices(|frames|)
    requires i < |frames| && (delivered != {} || |assemblies| < MAX_ACTIVE_ASSEMBLIES)
    ensures var o := PushChunk(assemblies, buffered, frames[i]);
      if delivered + {i} == Indices(|frames|) then o.answer == Ok(Some(encoded))
      else o.answer == Ok(None) && Holds(o.assemblies, frames, encoded, id, innerType, delivered + {i})
  {
    if i in delivered {
      RepeatIsIgnored(assemblies, buffered, frames, encoded, id, innerType, delivered, i);
      assert delivered + {i} == delivered;
    } else {
      NewChunkArrives(assemblies, buffered, frames, encoded, id, innerType, delivered, i);
    }
  }

  lemma {:induction false} HoldsAfter(events: seq<Event>, frames: seq<Frame>, encoded: Bytes, id: Bytes, innerType: int)
    requires IsChunking(frames, encoded, id, innerType) && IsFrame(encoded, innerType)
    requires Legal(events) && OnlyFrom(events, frames, id) && Delivered(events, id) != Indices(|frames|)
    ensures Delivered(events, id) < Indices(|frames|)
    ensures Holds(StateAfter(events).assemblies, frames, encoded, id, innerType, Delivered(events, id))
    decreases |events|
  {
    if events != [] {
      var prefix, e := events[..|events| - 1], events[|events| - 1];
      var before := StateAfter(prefix);
      DeliveredFrom(events, frames, id);
      DeliveredFrom(prefix, frames, id);
      HoldsAfter(prefix, frames, encoded, id, innerType);
      RunKeepsInv(prefix);
      if IsFor(e, id) {
        ChunkProgress(before.assemblies, before.buffered, frames, encoded, id, innerType, Delivered(prefix, id), e.frame.chunkIndex);
      } else {
        OthersLeaveItAlone(before, e, id);
      }
    }
  }

  lemma {:induction false} DeliveredFrom(events: seq<Event>, frames: seq<Frame>, id: Bytes)
    requires OnlyFrom(events, frames, id)
    ensures Delivered(events, id) <= Indices(|frames|)
    ensures events != [] ==> OnlyFrom(events[..|events| - 1], frames, id)
    decreases |events|
  {
    if events != [] {
      var prefix := events[..|events| - 1];
      assert events[|events| - 1] in events;
      assert OnlyFrom(prefix, frames, id) by {
        assert forall e | e in prefix :: e in events;
      }
      DeliveredFrom(prefix, frames, id);
    }
  }

  /**
     The chunks of a frame may arrive in any order, repeatedly and among those of another message: each is accepted,
     and the one that completes the indices, and no other, brings out the frame exactly as it was encoded.
   */
  lemma AnyOrderReassembles(events: seq<Event>, frames: seq<Frame>, encoded: Bytes, id: Bytes, innerType: int, i: nat)
    requires IsChunking(frames, encoded, id, innerType) && IsFrame(encoded, innerType) && i < |frames|
    requires Legal(events) && OnlyFrom(events, frames, id) && Delivered(events, id) != Indices(|frames|)
    requires Delivered(events, id) != {} || |StateAfter(events).assemblies| < MAX_ACTIVE_ASSEMBLIES
    ensures var s := StateAfter(events);
      PushChunk(s.assemblies, s.buffered, frames[i]).answer
      == Ok(if Delivered(events, id) + {i} == Indices(|frames|) then Some(encoded) else None)
  {
    var s := StateAfter(events);
    RunKeepsInv(events);
    HoldsAfter(events, frames, encoded, id, innerType);
    ChunkProgress(s.assemblies, s.buffered, frames, encoded, id, innerType, Delivered(events, id), i);
  }
}
