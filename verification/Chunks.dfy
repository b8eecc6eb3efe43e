/**
 A frame too large for one message travels as chunks: what the checks of one chunk's counts and lengths mean,
 and the chunks a sender makes.
 */
module Chunks {
  import opened BoardFrames
  import opened Containers
  import opened Leb128
  import opened Wrappers

  // ----- what the counts and lengths promise

  function Total(lengths: seq<nat>): nat {
    if lengths == [] then 0 else lengths[0] + Total(lengths[1..])
  }

  /** A way to cut `total` bytes into `count` payloads, each of an accepted length. */
  ghost predicate IsSplit(lengths: seq<nat>, count: int, total: int) {
    |lengths| == count && Total(lengths) == total && forall i | 0 <= i < |lengths| :: 1 <= lengths[i] <= MAX_CHUNK_PAYLOAD_BYTES
  }

  ghost predicate CanSplit(count: int, total: int) {
    exists lengths: seq<nat> :: IsSplit(lengths, count, total)
  }

  /** A way that gives this chunk the payload it has. */
  ghost predicate SplitHas(lengths: seq<nat>, f: Frame)
    requires f.Chunk?
  {
    && IsSplit(lengths, f.chunkCount, f.totalLength)
    && 0 <= f.chunkIndex < |lengths| && lengths[f.chunkIndex] == |f.payload|
  }

  ghost predicate IsPieceOfSplit(f: Frame)
    requires f.Chunk?
  {
    exists lengths: seq<nat> :: SplitHas(lengths, f)
  }

  /** Enough is left for one byte in each remaining payload. */
  function Greedy(count: nat, total: nat): (lengths: seq<nat>)
    requires count <= total <= count * MAX_CHUNK_PAYLOAD_BYTES
    ensures IsSplit(lengths, count, total)
  {
    if count == 0 then [] else
      var first := if total - (count - 1) < MAX_CHUNK_PAYLOAD_BYTES then total - (count - 1) else MAX_CHUNK_PAYLOAD_BYTES;
      [first] + Greedy(count - 1, total - first)
  }

  lemma {:induction false} TotalBounds(lengths: seq<nat>)
    requires forall i | 0 <= i < |lengths| :: 1 <= lengths[i] <= MAX_CHUNK_PAYLOAD_BYTES
    ensures |lengths| <= Total(lengths) <= |lengths| * MAX_CHUNK_PAYLOAD_BYTES
    decreases |lengths|
  {
    if lengths != [] {
      TotalBounds(lengths[1..]);
    }
  }

  lemma SplitExistsIff(count: nat, total: int)
    ensures CanSplit(count, total) <==> count <= total <= count * MAX_CHUNK_PAYLOAD_BYTES
  {
    if count <= total <= count * MAX_CHUNK_PAYLOAD_BYTES {
      assert IsSplit(Greedy(count, total), count, total);
    }
    if CanSplit(count, total) {
      var lengths: seq<nat> :| IsSplit(lengths, count, total);
      TotalBounds(lengths);
    }
  }

  lemma {:induction false} TotalWithout(lengths: seq<nat>, i: nat)
    requires i < |lengths|
    ensures Total(lengths) == lengths[i] + Total(lengths[..i] + lengths[i + 1..])
    decreases i
  {
    if i == 0 {
      assert lengths[..i] + lengths[i + 1..] == lengths[1..];
    } else {
      TotalWithout(lengths[1..], i - 1);
      var rest := lengths[..i] + lengths[i + 1..];
      assert rest[1..] == lengths[1..][..i - 1] + lengths[1..][i..];
    }
  }

  /** Every check but those on the total: the id, the kind, the index and the payload's own length. */
  predicate PlainlyValid(f: Frame)
    requires f.Chunk?
  {
    && |f.messageId| == MESSAGE_ID_BYTES && (f.innerType == SYNC_STEP2_TYPE || f.innerType == UPDATE_TYPE)
    && 2 <= f.chunkCount <= MAX_CHUNK_COUNT && 0 <= f.chunkIndex < f.chunkCount
    && f.totalLength <= MAX_REASSEMBLED_BYTES && 1 <= |f.payload| <= MAX_CHUNK_PAYLOAD_BYTES
  }

  lemma RoundedUp(total: nat, count: nat)
    ensures (total + MAX_CHUNK_PAYLOAD_BYTES - 1) / MAX_CHUNK_PAYLOAD_BYTES <= count <==> total <= count * MAX_CHUNK_PAYLOAD_BYTES
  {
  }

  /** The tests of the total pass exactly when it is more than this payload and can be cut into that many payloads at all. */
  lemma ChunkCheckIff(f: Frame)
    requires f.Chunk?
    ensures CheckChunk(f).Ok? <==> PlainlyValid(f) && |f.payload| < f.totalLength && CanSplit(f.chunkCount, f.totalLength)
  {
    if PlainlyValid(f) && |f.payload| < f.totalLength {
      RoundedUp(f.totalLength, f.chunkCount);
      SplitExistsIff(f.chunkCount, f.totalLength);
    }
  }

  lemma PieceLeavesRest(f: Frame, lengths: seq<nat>)
    requires f.Chunk? && SplitHas(lengths, f)
    ensures f.chunkCount - 1 <= f.totalLength - |f.payload| <= (f.chunkCount - 1) * MAX_CHUNK_PAYLOAD_BYTES
  {
    var i := f.chunkIndex;
    TotalWithout(lengths, i);
    TotalBounds(lengths[..i] + lengths[i + 1..]);
  }

  lemma RestMakesPiece(f: Frame)
    requires f.Chunk? && CheckChunk(f).Ok?
    requires f.chunkCount - 1 <= f.totalLength - |f.payload| <= (f.chunkCount - 1) * MAX_CHUNK_PAYLOAD_BYTES
    ensures IsPieceOfSplit(f)
  {
    var i, rest := f.chunkIndex, Greedy(f.chunkCount - 1, f.totalLength - |f.payload|);
    var lengths := rest[..i] + [|f.payload|] + rest[i..];
    assert lengths[..i] + lengths[i + 1..] == rest;
    TotalWithout(lengths, i);
    assert SplitHas(lengths, f);
  }

  /** An accepted chunk can be one of such payloads exactly when the other payloads can make up the rest. */
  lemma PieceOfSplitIff(f: Frame)
    requires f.Chunk? && CheckChunk(f).Ok?
    ensures IsPieceOfSplit(f)
            <==> f.chunkCount - 1 <= f.totalLength - |f.payload| <= (f.chunkCount - 1) * MAX_CHUNK_PAYLOAD_BYTES
  {
    if IsPieceOfSplit(f) {
      var lengths: seq<nat> :| SplitHas(lengths, f);
      PieceLeavesRest(f, lengths);
    }
    if f.chunkCount - 1 <= f.totalLength - |f.payload| <= (f.chunkCount - 1) * MAX_CHUNK_PAYLOAD_BYTES {
      RestMakesPiece(f);
    }
  }

  /** One byte of two full payloads: the checks accept a chunk that no other chunk can complete. */
  lemma AcceptedButUnfinishable(id: Bytes) returns (f: Frame)
    requires |id| == MESSAGE_ID_BYTES
    ensures f.Chunk? && f.messageId == id && CheckChunk(f).Ok? && !IsPieceOfSplit(f)
  {
    f := Chunk(id, UPDATE_TYPE, 0, 2, 2 * MAX_CHUNK_PAYLOAD_BYTES, [0]);
    PieceOfSplitIff(f);
  }

  // ----- the chunks a sender makes

  predicate AllChunks(frames: seq<Frame>) {
    forall i | 0 <= i < |frames| :: frames[i].Chunk?
  }

  function Payloads(frames: seq<Frame>): (payloads: seq<Bytes>)
    requires AllChunks(frames)
  {
    seq(|frames|, i requires 0 <= i < |frames| => frames[i].payload)
  }

  /** Accepted chunks of one message, in order, whose payloads make up the encoded frame. */
  ghost predicate IsChunking(frames: seq<Frame>, encoded: Bytes, id: Bytes, innerType: int) {
    && AllChunks(frames) && Joined(Payloads(frames)) == encoded
    && forall i | 0 <= i < |frames| ::
         && CheckChunk(frames[i]).Ok?
         && frames[i] == Chunk(id, innerType, i, |frames|, |encoded|, frames[i].payload)
  }

  /** Each is then a piece of a split, namely of the one the sender made. */
  lemma SentChunksAreSplit(frames: seq<Frame>, encoded: Bytes, id: Bytes, innerType: int, i: nat)
    requires IsChunking(frames, encoded, id, innerType) && i < |frames|
    ensures IsPieceOfSplit(frames[i])
  {
    var lengths := Lengths(Payloads(frames));
    JoinedLength(Payloads(frames));
    assert SplitHas(lengths, frames[i]);
  }

  function Lengths(parts: seq<Bytes>): seq<nat> {
    seq(|parts|, i requires 0 <= i < |parts| => |parts[i]|)
  }

  lemma {:induction false} JoinedLength(parts: seq<Bytes>)
    ensures |Joined(parts)| == Total(Lengths(parts))
    decreases |parts|
  {
    if parts != [] {
      JoinedFirst(parts);
      JoinedLength(parts[1..]);
      assert Lengths(parts)[1..] == Lengths(parts[1..]);
    }
  }

  lemma SliceIsAccepted(start: nat, end: nat, index: nat, count: nat, total: nat)
    requires MAX_CHUNK_PAYLOAD_BYTES < total <= MAX_ENCODED_FRAME_BYTES
    requires count == (total + MAX_CHUNK_PAYLOAD_BYTES - 1) / MAX_CHUNK_PAYLOAD_BYTES && index < count
    requires start == index * MAX_CHUNK_PAYLOAD_BYTES
    requires end == if total < start + MAX_CHUNK_PAYLOAD_BYTES then total else start + MAX_CHUNK_PAYLOAD_BYTES
    ensures 2 <= count <= MAX_CHUNK_COUNT && start < end <= total
    ensures end == if index + 1 < count then (index + 1) * MAX_CHUNK_PAYLOAD_BYTES else total
  {
  }

  /** An encoded frame above the threshold; the limit on the number of chunks is never the reason to refuse it. */
  method ChunkFrames(encoded: Bytes, id: Bytes, innerType: int) returns (frames: Option<seq<Frame>>)
    requires MAX_CHUNK_PAYLOAD_BYTES < |encoded| <= MAX_ENCODED_FRAME_BYTES && |id| == MESSAGE_ID_BYTES
    requires innerType == SYNC_STEP2_TYPE || innerType == UPDATE_TYPE
    ensures frames.Some? && IsChunking(frames.value, encoded, id, innerType)
  {
    var chunkCount := (|encoded| + MAX_CHUNK_PAYLOAD_BYTES - 1) / MAX_CHUNK_PAYLOAD_BYTES;
    if chunkCount > MAX_CHUNK_COUNT {
      return None;
    }
    var sent: seq<Frame> := [];
    ghost var done := 0;
    for chunkIndex := 0 to chunkCount
      invariant |sent| == chunkIndex && AllChunks(sent)
      invariant done == if chunkIndex < chunkCount then chunkIndex * MAX_CHUNK_PAYLOAD_BYTES else |encoded|
      invariant 0 <= done <= |encoded| && Joined(Payloads(sent)) == encoded[..done]
      invariant forall i | 0 <= i < chunkIndex ::
        CheckChunk(sent[i]).Ok? && sent[i] == Chunk(id, innerType, i, chunkCount, |encoded|, sent[i].payload)
    {
      var start := chunkIndex * MAX_CHUNK_PAYLOAD_BYTES;
      var end := if |encoded| < start + MAX_CHUNK_PAYLOAD_BYTES then |encoded| else start + MAX_CHUNK_PAYLOAD_BYTES;
      SliceIsAccepted(start, end, chunkIndex, chunkCount, |encoded|);
      var frame := Chunk(id, innerType, chunkIndex, chunkCount, |encoded|, encoded[start..end]);
      ChunkAccepted(frame);
      AppendPayload(sent, frame);
      assert encoded[..end] == encoded[..start] + encoded[start..end];
      sent := sent + [frame];
      done := end;
    }
    assert encoded[..done] == encoded;
    return Some(sent);
  }

  lemma ChunkAccepted(f: Frame)
    requires f.Chunk? && PlainlyValid(f) && |f.payload| < f.totalLength
    requires f.chunkCount == (f.totalLength + MAX_CHUNK_PAYLOAD_BYTES - 1) / MAX_CHUNK_PAYLOAD_BYTES
    ensures CheckChunk(f).Ok?
  {
  }

  lemma AppendPayload(frames: seq<Frame>, f: Frame)
    requires AllChunks(frames) && f.Chunk?
    ensures Joined(Payloads(frames + [f])) == Joined(Payloads(frames)) + f.payload
  {
    var all := Payloads(frames + [f]);
    assert all[..|frames|] == Payloads(frames);
  }
}
