/** The encoder, which appends to a buffer, and the decoder, which advances a position. */
module BoardCodec {
  import opened BoardFrames
  import opened Chunks
  import opened Leb128
  import opened Utf8Text
  import opened Wrappers

  // ----- encoding

  class Encoder {
    var buffer: Bytes

    constructor ()
      ensures buffer == []
    {
      buffer := [];
    }

    /** Each `ensures` says that writing a field moves it from the rest into the buffer. */
    method WriteUint8(v: int)
      requires 0 <= v < 0x100
      modifies this
      ensures forall tail: Bytes :: old(buffer) + PutByte(v, tail) == buffer + tail
    {
      buffer := buffer + [v];
    }

    method WriteUint8Array(bytes: Bytes)
      modifies this
      ensures forall tail: Bytes :: old(buffer) + (bytes + tail) == buffer + tail
    {
      buffer := buffer + bytes;
    }

    method WriteVarUint(value: nat)
      modifies this
      ensures forall tail: Bytes :: old(buffer) + PutVar(value, tail) == buffer + tail
    {
      var num := value;
      while num > 0x7f
        invariant old(buffer) + Leb(value) == buffer + Leb(num)
      {
        ghost var before := buffer;
        buffer := buffer + [0x80 + num % 0x80];
        assert before + Leb(num) == buffer + Leb(num / 0x80);
        num := num / 0x80;
      }
      buffer := buffer + [num];
      assert old(buffer) + Leb(value) == buffer;
      forall tail: Bytes
        ensures old(buffer) + PutVar(value, tail) == buffer + tail
      {
        assert old(buffer) + (Leb(value) + tail) == (old(buffer) + Leb(value)) + tail;
      }
    }

    method WriteVarBytes(bytes: Bytes)
      modifies this
      ensures forall tail: Bytes :: old(buffer) + PutVarBytes(bytes, tail) == buffer + tail
    {
      WriteVarUint(|bytes|);
      label L:
      WriteUint8Array(bytes);
      forall tail: Bytes
        ensures old(buffer) + PutVarBytes(bytes, tail) == buffer + tail
      {
        assert old(buffer) + PutVar(|bytes|, bytes + tail) == old@L(buffer) + (bytes + tail);
      }
    }

    method WriteHeader(f: Frame)
      modifies this
      ensures buffer == old(buffer) + Header(f)
    {
      buffer := buffer + PROTOCOL_MAGIC + [PROTOCOL_VERSION] + [TypeOf(f)];
    }

    method WriteGeneration(generation: int) returns (r: Checked)
      modifies this
      ensures r == CheckUint(generation, 0, MAX_SAFE_INTEGER)
      ensures r.Ok? ==> forall tail: Bytes :: old(buffer) + PutVar(generation, tail) == buffer + tail
    {
      var _ :- AssertUint(generation, 0, MAX_SAFE_INTEGER);
      WriteVarUint(generation);
      return Ok(());
    }

    method WriteText(text: Utf8, max: int) returns (r: Checked)
      modifies this
      ensures r == CheckText(text, max)
      ensures r.Ok? ==> forall tail: Bytes :: old(buffer) + PutVarBytes(text, tail) == buffer + tail
    {
      var _ :- AssertBytes(text, 1, max);
      if HasControls(text) {
        return Err(InvalidField);
      }
      WriteVarBytes(text);
      return Ok(());
    }

    method WriteDocument(generation: int, docKey: Utf8) returns (r: Checked)
      modifies this
      ensures r == CheckDocument(generation, docKey)
      ensures r.Ok? ==> forall tail: Bytes :: old(buffer) + PutDocument(generation, docKey, tail) == buffer + tail
    {
      var _ :- WriteGeneration(generation);
      label L:
      var _ :- WriteText(docKey, MAX_DOCUMENT_KEY_BYTES);
      forall tail: Bytes
        ensures old(buffer) + PutDocument(generation, docKey, tail) == buffer + tail
      {
        assert old@L(buffer) + PutVarBytes(docKey, tail) == buffer + tail;
      }
      return Ok(());
    }

    method WriteMessageId(id: Bytes) returns (r: Checked)
      modifies this
      ensures r == CheckMessageId(id)
      ensures r.Ok? ==> forall tail: Bytes :: old(buffer) + (id + tail) == buffer + tail
    {
      var _ :- AssertBytes(id, MESSAGE_ID_BYTES, MESSAGE_ID_BYTES);
      WriteUint8Array(id);
      return Ok(());
    }
  }

  method AssertUint(v: int, min: int, max: int) returns (r: Checked)
    ensures r == CheckUint(v, min, max)
  {
    if !(0 <= v <= MAX_SAFE_INTEGER) || v < min || v > max {
      return Err(InvalidField);
    }
    return Ok(());
  }

  method AssertBytes(bytes: Bytes, min: int, max: int) returns (r: Checked)
    ensures r == CheckLength(bytes, min, max)
  {
    if |bytes| < min || |bytes| > max {
      return Err(InvalidLength);
    }
    return Ok(());
  }

  method EncodeAuth(encoder: Encoder, f: Frame) returns (r: Checked)
    requires f.Auth?
    modifies encoder
    ensures r == Check(f)
    ensures r.Ok? ==> old(encoder.buffer) + PutBody(f, []) == encoder.buffer
  {
    var _ :- encoder.WriteGeneration(f.generation);
    var _ :- AssertUint(f.minSchemaVersion, 1, MAX_SCHEMA_VERSION);
    var _ :- AssertUint(f.maxSchemaVersion, 1, MAX_SCHEMA_VERSION);
    if f.minSchemaVersion > f.maxSchemaVersion {
      return Err(InvalidField);
    }
    var _ :- AssertUint(f.capabilities, 0, MAX_UINT32);
    var _ :- AssertBytes(f.ticket, 1, MAX_TICKET_BYTES);
    if HasControls(f.ticket) {
      return Err(InvalidField);
    }
    encoder.WriteVarUint(f.minSchemaVersion);
    encoder.WriteVarUint(f.maxSchemaVersion);
    encoder.WriteVarUint(f.capabilities);
    encoder.WriteVarBytes(f.ticket);
    assert encoder.buffer + [] == encoder.buffer;
    return Ok(());
  }

  method EncodeReady(encoder: Encoder, f: Frame) returns (r: Checked)
    requires f.Ready?
    modifies encoder
    ensures r == Check(f)
    ensures r.Ok? ==> old(encoder.buffer) + PutBody(f, []) == encoder.buffer
  {
    var _ :- encoder.WriteGeneration(f.generation);
    var _ :- AssertUint(f.schemaVersion, 1, MAX_SCHEMA_VERSION);
    var _ :- AssertUint(f.capabilities, 0, MAX_UINT32);
    var _ :- AssertUint(f.awarenessClientId, 0, MAX_UINT32);
    var _ :- AssertUint(f.permissions, 0, 0xff);
    if f.permissions % 2 == 0 {
      return Err(InvalidField);
    }
    encoder.WriteVarUint(f.schemaVersion);
    encoder.WriteVarUint(f.capabilities);
    encoder.WriteVarUint(f.awarenessClientId);
    encoder.WriteVarUint(f.permissions);
    assert encoder.buffer + [] == encoder.buffer;
    return Ok(());
  }

  method EncodeSyncStep1(encoder: Encoder, f: Frame) returns (r: Checked)
    requires f.SyncStep1?
    modifies encoder
    ensures r == Check(f)
    ensures r.Ok? ==> old(encoder.buffer) + PutBody(f, []) == encoder.buffer
  {
    var _ :- encoder.WriteDocument(f.generation, f.docKey);
    var _ :- AssertBytes(f.stateVector, 1, MAX_STATE_VECTOR_BYTES);
    encoder.WriteVarBytes(f.stateVector);
    assert encoder.buffer + [] == encoder.buffer;
    return Ok(());
  }

  method EncodeSyncStep2(encoder: Encoder, f: Frame) returns (r: Checked)
    requires f.SyncStep2?
    modifies encoder
    ensures r == Check(f)
    ensures r.Ok? ==> old(encoder.buffer) + PutBody(f, []) == encoder.buffer
  {
    var _ :- encoder.WriteDocument(f.generation, f.docKey);
    var _ :- AssertBytes(f.update, 1, MAX_UPDATE_BYTES);
    encoder.WriteVarBytes(f.update);
    assert encoder.buffer + [] == encoder.buffer;
    return Ok(());
  }

  method EncodeUpdate(encoder: Encoder, f: Frame) returns (r: Checked)
    requires f.Update?
    modifies encoder
    ensures r == Check(f)
    ensures r.Ok? ==> old(encoder.buffer) + PutBody(f, []) == encoder.buffer
  {
    var _ :- encoder.WriteDocument(f.generation, f.docKey);
    var _ :- encoder.WriteMessageId(f.messageId);
    var _ :- AssertBytes(f.update, 1, MAX_UPDATE_BYTES);
    encoder.WriteVarBytes(f.update);
    assert encoder.buffer + [] == encoder.buffer;
    return Ok(());
  }

  method EncodeAck(encoder: Encoder, f: Frame) returns (r: Checked)
    requires f.Ack?
    modifies encoder
    ensures r == Check(f)
    ensures r.Ok? ==> old(encoder.buffer) + PutBody(f, []) == encoder.buffer
  {
    var _ :- encoder.WriteDocument(f.generation, f.docKey);
    var _ :- encoder.WriteMessageId(f.messageId);
    var _ :- AssertUint(f.durableSequence, 1, MAX_SAFE_INTEGER);
    encoder.WriteVarUint(f.durableSequence);
    assert encoder.buffer + [] == encoder.buffer;
    return Ok(());
  }

  method EncodeAwareness(encoder: Encoder, f: Frame) returns (r: Checked)
    requires f.Awareness?
    modifies encoder
    ensures r == Check(f)
    ensures r.Ok? ==> old(encoder.buffer) + PutBody(f, []) == encoder.buffer
  {
    var _ :- encoder.WriteDocument(f.generation, f.docKey);
    var _ :- AssertUint(f.awarenessClientId, 0, MAX_UINT32);
    var _ :- AssertBytes(f.update, 1, MAX_AWARENESS_BYTES);
    encoder.WriteVarUint(f.awarenessClientId);
    encoder.WriteVarBytes(f.update);
    assert encoder.buffer + [] == encoder.buffer;
    return Ok(());
  }

  method EncodeControl(encoder: Encoder, f: Frame) returns (r: Checked)
    requires f.Control?
    modifies encoder
    ensures r == Check(f)
    ensures r.Ok? ==> old(encoder.buffer) + PutBody(f, []) == encoder.buffer
  {
    var _ :- encoder.WriteGeneration(f.generation);
    if !(1 <= f.code <= 12) {
      return Err(UnsupportedMessage);
    }
    var _ :- AssertBytes(f.payload, 0, MAX_CONTROL_PAYLOAD_BYTES);
    var flags := 0;
    if f.key.Some? {
      flags := flags + 1;
    }
    if f.id.Some? {
      flags := flags + 2;
    }
    encoder.WriteVarUint(f.code);
    encoder.WriteUint8(flags);
    if f.key.Some? {
      var _ :- encoder.WriteText(f.key.value, MAX_DOCUMENT_KEY_BYTES);
    }
    if f.id.Some? {
      var _ :- encoder.WriteMessageId(f.id.value);
    }
    encoder.WriteVarBytes(f.payload);
    assert encoder.buffer + [] == encoder.buffer;
    return Ok(());
  }

  method AssertChunk(f: Frame) returns (r: Checked)
    requires f.Chunk?
    ensures r == CheckChunk(f)
    ensures r.Ok? <==> PlainlyValid(f) && |f.payload| < f.totalLength && CanSplit(f.chunkCount, f.totalLength)
  {
    ChunkCheckIff(f);
    var _ :- AssertBytes(f.messageId, MESSAGE_ID_BYTES, MESSAGE_ID_BYTES);
    if f.innerType != SYNC_STEP2_TYPE && f.innerType != UPDATE_TYPE {
      return Err(UnsupportedMessage);
    }
    var _ :- AssertUint(f.chunkCount, 2, MAX_CHUNK_COUNT);
    var _ :- AssertUint(f.chunkIndex, 0, f.chunkCount - 1);
    var _ :- AssertUint(f.totalLength, 1, MAX_REASSEMBLED_BYTES);
    var _ :- AssertBytes(f.payload, 1, MAX_CHUNK_PAYLOAD_BYTES);
    if f.totalLength <= |f.payload| {
      return Err(InvalidLength);
    }
    var minimumChunks := (f.totalLength + MAX_CHUNK_PAYLOAD_BYTES - 1) / MAX_CHUNK_PAYLOAD_BYTES;
    if f.chunkCount < minimumChunks || f.chunkCount > f.totalLength {
      return Err(InvalidLength);
    }
    return Ok(());
  }

  method EncodeChunk(encoder: Encoder, f: Frame) returns (r: Checked)
    requires f.Chunk?
    modifies encoder
    ensures r == Check(f)
    ensures r.Ok? ==> old(encoder.buffer) + PutBody(f, []) == encoder.buffer
  {
    var _ :- AssertChunk(f);
    encoder.WriteUint8Array(f.messageId);
    encoder.WriteUint8(f.innerType);
    encoder.WriteVarUint(f.chunkIndex);
    encoder.WriteVarUint(f.chunkCount);
    encoder.WriteVarUint(f.totalLength);
    encoder.WriteVarBytes(f.payload);
    assert encoder.buffer + [] == encoder.buffer;
    return Ok(());
  }

  /** The encoding of a frame whose fields pass their checks; DecodeUndoesEncode says what it means. */
  method EncodeBoardFrame(f: Frame) returns (result: Result<Bytes, ErrorCode>)
    ensures result == Encode(f)
  {
    var encoder := new Encoder();
    encoder.WriteHeader(f);
    assert encoder.buffer == Header(f);
    var checked: Checked;
    match f {
      case Auth(_, _, _, _, _) => checked := EncodeAuth(encoder, f);
      case Ready(_, _, _, _, _) => checked := EncodeReady(encoder, f);
      case SyncStep1(_, _, _) => checked := EncodeSyncStep1(encoder, f);
      case SyncStep2(_, _, _) => checked := EncodeSyncStep2(encoder, f);
      case Update(_, _, _, _) => checked := EncodeUpdate(encoder, f);
      case Ack(_, _, _, _) => checked := EncodeAck(encoder, f);
      case Awareness(_, _, _, _) => checked := EncodeAwareness(encoder, f);
      case Control(_, _, _, _, _) => checked := EncodeControl(encoder, f);
      case Chunk(_, _, _, _, _, _) => checked := EncodeChunk(encoder, f);
    }
    var _ :- checked;
    if |encoder.buffer| > MAX_ENCODED_FRAME_BYTES {
      return Err(FrameTooLarge);
    }
    return Ok(encoder.buffer);
  }

  // ----- decoding

  /** A read follows its specification: the same value and the same rest, or the same error. */
  ghost predicate Follows<T>(spec: Reading<T>, result: Result<T, ErrorCode>, rest: Bytes) {
    if spec.Ok? then result == Ok(spec.value.value) && rest == spec.value.rest else result == Err(spec.error)
  }

  method VarUintEncodedLength(value: nat) returns (length: nat)
    ensures length == |Leb(value)|
  {
    var remaining := value;
    length := 1;
    while remaining >= 128
      invariant length + |Leb(remaining)| == |Leb(value)| + 1
    {
      remaining := remaining / 128;
      length := length + 1;
    }
  }

  class Decoder {
    const arr: Bytes
    var pos: nat

    ghost predicate Valid()
      reads this
    {
      pos <= |arr|
    }

    function Rest(): Bytes
      reads this
      requires Valid()
    {
      arr[pos..]
    }

    constructor (bytes: Bytes)
      ensures Valid() && Rest() == bytes
    {
      arr, pos := bytes, 0;
    }

    method ReadDigits() returns (result: Result<nat, ErrorCode>)
      requires Valid()
      modifies this`pos
      ensures Valid() && Follows(Leb128.ReadDigits(old(Rest()), 0, 1), result, Rest())
    {
      var num: nat, mult: nat := 0, 1;
      while pos < |arr|
        invariant Valid() && Leb128.ReadDigits(old(Rest()), 0, 1) == Leb128.ReadDigits(Rest(), num, mult)
      {
        var r := arr[pos];
        assert Rest()[1..] == arr[pos + 1..];
        num := num + r % 0x80 * mult;
        mult := mult * 0x80;
        pos := pos + 1;
        if r < 0x80 {
          return Ok(num);
        }
        if num > MAX_SAFE_INTEGER {
          return Err(InvalidVarUint);
        }
      }
      return Err(InvalidVarUint);
    }

    method ReadVarUint(min: int, max: int) returns (result: Result<int, ErrorCode>)
      requires Valid()
      modifies this`pos
      ensures Valid() && Follows(Leb128.ReadVarUint(old(Rest()), min, max), result, Rest())
    {
      var start := pos;
      var value :- ReadDigits();
      if value > MAX_SAFE_INTEGER || value < min || value > max {
        return Err(InvalidField);
      }
      var length := VarUintEncodedLength(value);
      if pos - start != length {
        return Err(InvalidVarUint);
      }
      return Ok(value);
    }

    method ReadUint8() returns (result: Result<int, ErrorCode>)
      requires Valid()
      modifies this`pos
      ensures Valid() && Follows(ReadByte(old(Rest())), result, Rest())
    {
      if pos + 1 > |arr| {
        return Err(Truncated);
      }
      pos := pos + 1;
      return Ok(arr[pos - 1]);
    }

    method ReadBytes(length: nat) returns (result: Result<Bytes, ErrorCode>)
      requires Valid()
      modifies this`pos
      ensures Valid() && Follows(Leb128.ReadBytes(old(Rest()), length), result, Rest())
    {
      if pos + length > |arr| {
        return Err(Truncated);
      }
      var start := pos;
      pos := pos + length;
      assert arr[start..][..length] == arr[start..pos] && arr[start..][length..] == arr[pos..];
      return Ok(arr[start..pos]);
    }

    method ReadVarBytes(min: nat, max: int) returns (result: Result<Bytes, ErrorCode>)
      requires Valid()
      modifies this`pos
      ensures Valid() && Follows(Leb128.ReadVarBytes(old(Rest()), min, max), result, Rest())
    {
      var length :- ReadVarUint(min, max);
      result := ReadBytes(length);
    }

    method ReadText(max: int) returns (result: Result<Utf8, ErrorCode>)
      requires Valid()
      modifies this`pos
      ensures Valid() && Follows(BoardFrames.ReadText(old(Rest()), max, true), result, Rest())
    {
      var bytes :- ReadVarBytes(1, max);
      if !ValidUtf8(bytes) {
        return Err(InvalidUtf8);
      }
      var text := DropBom(bytes);
      if HasControls(text) {
        return Err(InvalidField);
      }
      return Ok(text);
    }

    method ReadDocKey() returns (result: Result<Utf8, ErrorCode>)
      requires Valid()
      modifies this`pos
      ensures Valid() && Follows(BoardFrames.ReadDocKey(old(Rest()), true), result, Rest())
    {
      result := ReadText(MAX_DOCUMENT_KEY_BYTES);
    }

    method ReadGeneration() returns (result: Result<int, ErrorCode>)
      requires Valid()
      modifies this`pos
      ensures Valid() && Follows(BoardFrames.ReadGeneration(old(Rest())), result, Rest())
    {
      result := ReadVarUint(0, MAX_SAFE_INTEGER);
    }

    method ReadMessageId() returns (result: Result<Bytes, ErrorCode>)
      requires Valid()
      modifies this`pos
      ensures Valid() && Follows(BoardFrames.ReadMessageId(old(Rest())), result, Rest())
    {
      result := ReadBytes(MESSAGE_ID_BYTES);
    }
  }

  method DecodeAuth(d: Decoder) returns (result: Result<Frame, ErrorCode>)
    requires d.Valid()
    modifies d`pos
    ensures d.Valid() && Follows(ReadAuth(old(d.Rest()), true), result, d.Rest())
  {
    var generation :- d.ReadGeneration();
    var minSchemaVersion :- d.ReadVarUint(1, MAX_SCHEMA_VERSION);
    var maxSchemaVersion :- d.ReadVarUint(1, MAX_SCHEMA_VERSION);
    if minSchemaVersion > maxSchemaVersion {
      return Err(InvalidField);
    }
    var capabilities :- d.ReadVarUint(0, MAX_UINT32);
    var ticket :- d.ReadText(MAX_TICKET_BYTES);
    return Ok(Auth(ticket, generation, minSchemaVersion, maxSchemaVersion, capabilities));
  }

  method DecodeReady(d: Decoder) returns (result: Result<Frame, ErrorCode>)
    requires d.Valid()
    modifies d`pos
    ensures d.Valid() && Follows(ReadReady(old(d.Rest())), result, d.Rest())
  {
    var generation :- d.ReadGeneration();
    var schemaVersion :- d.ReadVarUint(1, MAX_SCHEMA_VERSION);
    var capabilities :- d.ReadVarUint(0, MAX_UINT32);
    var awarenessClientId :- d.ReadVarUint(0, MAX_UINT32);
    var permissions :- d.ReadVarUint(0, 0xff);
    if permissions % 2 == 0 {
      return Err(InvalidField);
    }
    return Ok(Ready(generation, schemaVersion, capabilities, awarenessClientId, permissions));
  }

  method DecodeSyncStep1(d: Decoder) returns (result: Result<Frame, ErrorCode>)
    requires d.Valid()
    modifies d`pos
    ensures d.Valid() && Follows(ReadSyncStep1(old(d.Rest()), true), result, d.Rest())
  {
    var generation :- d.ReadGeneration();
    var docKey :- d.ReadDocKey();
    var stateVector :- d.ReadVarBytes(1, MAX_STATE_VECTOR_BYTES);
    return Ok(SyncStep1(generation, docKey, stateVector));
  }

  method DecodeSyncStep2(d: Decoder) returns (result: Result<Frame, ErrorCode>)
    requires d.Valid()
    modifies d`pos
    ensures d.Valid() && Follows(ReadSyncStep2(old(d.Rest()), true), result, d.Rest())
  {
    var generation :- d.ReadGeneration();
    var docKey :- d.ReadDocKey();
    var update :- d.ReadVarBytes(1, MAX_UPDATE_BYTES);
    return Ok(SyncStep2(generation, docKey, update));
  }

  method DecodeUpdate(d: Decoder) returns (result: Result<Frame, ErrorCode>)
    requires d.Valid()
    modifies d`pos
    ensures d.Valid() && Follows(ReadUpdate(old(d.Rest()), true), result, d.Rest())
  {
    var generation :- d.ReadGeneration();
    var docKey :- d.ReadDocKey();
    var messageId :- d.ReadMessageId();
    var update :- d.ReadVarBytes(1, MAX_UPDATE_BYTES);
    return Ok(Update(generation, docKey, messageId, update));
  }

  method DecodeAck(d: Decoder) returns (result: Result<Frame, ErrorCode>)
    requires d.Valid()
    modifies d`pos
    ensures d.Valid() && Follows(ReadAck(old(d.Rest()), true), result, d.Rest())
  {
    var generation :- d.ReadGeneration();
    var docKey :- d.ReadDocKey();
    var messageId :- d.ReadMessageId();
    var durableSequence :- d.ReadVarUint(1, MAX_SAFE_INTEGER);
    return Ok(Ack(generation, docKey, messageId, durableSequence));
  }

  method DecodeAwareness(d: Decoder) returns (result: Result<Frame, ErrorCode>)
    requires d.Valid()
    modifies d`pos
    ensures d.Valid() && Follows(ReadAwareness(old(d.Rest()), true), result, d.Rest())
  {
    var generation :- d.ReadGeneration();
    var docKey :- d.ReadDocKey();
    var awarenessClientId :- d.ReadVarUint(0, MAX_UINT32);
    var update :- d.ReadVarBytes(1, MAX_AWARENESS_BYTES);
    return Ok(Awareness(generation, docKey, awarenessClientId, update));
  }

  method DecodeControlRest(d: Decoder, generation: int, code: int, flags: int) returns (result: Result<Frame, ErrorCode>)
    requires d.Valid()
    modifies d`pos
    ensures d.Valid() && Follows(ReadControlRest(generation, code, flags, old(d.Rest()), true), result, d.Rest())
  {
    var docKey: Option<Utf8>, messageId: Option<Bytes> := None, None;
    if flags % 2 == 1 {
      var key :- d.ReadDocKey();
      docKey := Some(key);
    }
    if flags / 2 == 1 {
      var id :- d.ReadMessageId();
      messageId := Some(id);
    }
    var payload :- d.ReadVarBytes(0, MAX_CONTROL_PAYLOAD_BYTES);
    return Ok(Control(generation, code, docKey, messageId, payload));
  }

  method DecodeControl(d: Decoder) returns (result: Result<Frame, ErrorCode>)
    requires d.Valid()
    modifies d`pos
    ensures d.Valid() && Follows(ReadControl(old(d.Rest()), true), result, d.Rest())
  {
    var generation :- d.ReadGeneration();
    var code :- d.ReadVarUint(0, 0xff);
    if !(1 <= code <= 12) {
      return Err(UnsupportedMessage);
    }
    var flags :- d.ReadUint8();
    if flags > 3 {
      return Err(InvalidField);
    }
    result := DecodeControlRest(d, generation, code, flags);
  }

  method DecodeChunk(d: Decoder) returns (result: Result<Frame, ErrorCode>)
    requires d.Valid()
    modifies d`pos
    ensures d.Valid() && Follows(ReadChunk(old(d.Rest())), result, d.Rest())
  {
    var messageId :- d.ReadMessageId();
    var innerType :- d.ReadUint8();
    var chunkIndex :- d.ReadVarUint(0, MAX_CHUNK_COUNT - 1);
    var chunkCount :- d.ReadVarUint(2, MAX_CHUNK_COUNT);
    var totalLength :- d.ReadVarUint(1, MAX_REASSEMBLED_BYTES);
    var payload :- d.ReadVarBytes(1, MAX_CHUNK_PAYLOAD_BYTES);
    var frame := Chunk(messageId, innerType, chunkIndex, chunkCount, totalLength, payload);
    var _ :- AssertChunk(frame);
    return Ok(frame);
  }

  method DecodeBody(d: Decoder, frameType: int) returns (result: Result<Frame, ErrorCode>)
    requires d.Valid()
    modifies d`pos
    ensures d.Valid() && Follows(ReadBody(frameType, old(d.Rest()), true), result, d.Rest())
  {
    if frameType == 1 {
      result := DecodeAuth(d);
    } else if frameType == 2 {
      result := DecodeReady(d);
    } else if frameType == 3 {
      result := DecodeSyncStep1(d);
    } else if frameType == 4 {
      result := DecodeSyncStep2(d);
    } else if frameType == 5 {
      result := DecodeUpdate(d);
    } else if frameType == 6 {
      result := DecodeAck(d);
    } else if frameType == 7 {
      result := DecodeAwareness(d);
    } else if frameType == 8 {
      result := DecodeControl(d);
    } else if frameType == 9 {
      result := DecodeChunk(d);
    } else {
      result := Err(UnsupportedMessage);
    }
  }

  /** One frame and nothing after it; EncodeUndoesDecode says what is accepted. */
  method DecodeBoardFrame(bytes: Bytes) returns (result: Result<Frame, ErrorCode>)
    ensures result == Decode(bytes)
  {
    if |bytes| > MAX_ENCODED_FRAME_BYTES {
      return Err(FrameTooLarge);
    }
    var decoder := new Decoder(bytes);
    var magic :- decoder.ReadBytes(4);
    if magic != PROTOCOL_MAGIC {
      return Err(InvalidMagic);
    }
    var version :- decoder.ReadUint8();
    if version != PROTOCOL_VERSION {
      return Err(UnsupportedVersion);
    }
    var frameType :- decoder.ReadUint8();
    var frame :- DecodeBody(decoder, frameType);
    if decoder.pos != |decoder.arr| {
      return Err(TrailingData);
    }
    return Ok(frame);
  }
}
