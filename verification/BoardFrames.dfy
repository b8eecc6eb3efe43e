/**
 The frames of the board protocol, their field checks, and the wire form as functions.
 Text is UTF-8; the decoder drops a byte order mark at the start of a text field.
 */
module BoardFrames {
  import opened Leb128
  import opened Utf8Text
  import opened Wrappers

  const PROTOCOL_MAGIC: Bytes := [0x45, 0x44, 0x42, 0x32]
  const PROTOCOL_VERSION := 1
  const MESSAGE_ID_BYTES := 16

  const MAX_ENCODED_FRAME_BYTES := 16 * 1024 * 1024 + 4 * 1024
  const MAX_TICKET_BYTES := 4 * 1024
  const MAX_DOCUMENT_KEY_BYTES := 256
  const MAX_STATE_VECTOR_BYTES := 2 * 1024 * 1024
  const MAX_UPDATE_BYTES := 16 * 1024 * 1024
  const MAX_AWARENESS_BYTES := 256 * 1024
  const MAX_CONTROL_PAYLOAD_BYTES := 64 * 1024
  const MAX_CHUNK_PAYLOAD_BYTES := 256 * 1024
  const MAX_CHUNK_COUNT := 128
  const MAX_REASSEMBLED_BYTES := 16 * 1024 * 1024 + 4 * 1024
  const MAX_SCHEMA_VERSION := 0xffff
  const MAX_UINT32 := 0xffff_ffff

  const SYNC_STEP2_TYPE := 4
  const UPDATE_TYPE := 5

  // ----- frames

  datatype Frame =
    | Auth(ticket: Utf8, generation: int, minSchemaVersion: int, maxSchemaVersion: int, capabilities: int)
    | Ready(generation: int, schemaVersion: int, capabilities: int, awarenessClientId: int, permissions: int)
    | SyncStep1(generation: int, docKey: Utf8, stateVector: Bytes)
    | SyncStep2(generation: int, docKey: Utf8, update: Bytes)
    | Update(generation: int, docKey: Utf8, messageId: Bytes, update: Bytes)
    | Ack(generation: int, docKey: Utf8, messageId: Bytes, durableSequence: int)
    | Awareness(generation: int, docKey: Utf8, awarenessClientId: int, update: Bytes)
    | Control(generation: int, code: int, key: Option<Utf8>, id: Option<Bytes>, payload: Bytes)
    | Chunk(messageId: Bytes, innerType: int, chunkIndex: int, chunkCount: int, totalLength: int, payload: Bytes)

  /** The text field of a frame, if it has one. */
  function TextOf(f: Frame): Option<Utf8> {
    match f
    case Auth(ticket, _, _, _, _) => Some(ticket)
    case Ready(_, _, _, _, _) => None
    case Control(_, _, key, _, _) => key
    case Chunk(_, _, _, _, _, _) => None
    case _ => Some(f.docKey)
  }

  function WithText(f: Frame, text: Utf8): Frame {
    match f
    case Auth(_, _, _, _, _) => f.(ticket := text)
    case SyncStep1(generation, _, stateVector) => SyncStep1(generation, text, stateVector)
    case SyncStep2(generation, _, update) => SyncStep2(generation, text, update)
    case Update(generation, _, messageId, update) => Update(generation, text, messageId, update)
    case Ack(generation, _, messageId, durableSequence) => Ack(generation, text, messageId, durableSequence)
    case Awareness(generation, _, awarenessClientId, update) => Awareness(generation, text, awarenessClientId, update)
    case Control(_, _, key, _, _) => if key.Some? then f.(key := Some(text)) else f
    case _ => f
  }

  /** What the decoder returns for a frame sent as f. */
  function WithoutBom(f: Frame): Frame {
    if TextOf(f).Some? then WithText(f, DropBom(TextOf(f).value)) else f
  }

  predicate TextStartsWithBom(f: Frame) {
    TextOf(f).Some? && StartsWithBom(TextOf(f).value)
  }

  lemma WithoutBomIsSame(f: Frame)
    ensures WithoutBom(f) == f <==> !TextStartsWithBom(f)
  {
  }

  // ----- field checks, in the order the encoder makes them

  type Checked = Result<(), ErrorCode>

  function CheckUint(v: int, min: int, max: int): Checked {
    if 0 <= v <= MAX_SAFE_INTEGER && min <= v <= max then Ok(()) else Err(InvalidField)
  }

  function CheckLength(bytes: Bytes, min: int, max: int): Checked {
    if min <= |bytes| <= max then Ok(()) else Err(InvalidLength)
  }

  function CheckText(text: Utf8, max: int): Checked {
    var _ :- CheckLength(text, 1, max);
    if HasControls(text) then Err(InvalidField) else Ok(())
  }

  function CheckDocument(generation: int, docKey: Utf8): Checked {
    var _ :- CheckUint(generation, 0, MAX_SAFE_INTEGER);
    CheckText(docKey, MAX_DOCUMENT_KEY_BYTES)
  }

  function CheckMessageId(id: Bytes): Checked {
    CheckLength(id, MESSAGE_ID_BYTES, MESSAGE_ID_BYTES)
  }

  function CheckAuth(f: Frame): Checked
    requires f.Auth?
  {
    var _ :- CheckUint(f.generation, 0, MAX_SAFE_INTEGER);
    var _ :- CheckUint(f.minSchemaVersion, 1, MAX_SCHEMA_VERSION);
    var _ :- CheckUint(f.maxSchemaVersion, 1, MAX_SCHEMA_VERSION);
    if f.minSchemaVersion > f.maxSchemaVersion then Err(InvalidField)
    else
      var _ :- CheckUint(f.capabilities, 0, MAX_UINT32);
      CheckText(f.ticket, MAX_TICKET_BYTES)
  }

  function CheckReady(f: Frame): Checked
    requires f.Ready?
  {
    var _ :- CheckUint(f.generation, 0, MAX_SAFE_INTEGER);
    var _ :- CheckUint(f.schemaVersion, 1, MAX_SCHEMA_VERSION);
    var _ :- CheckUint(f.capabilities, 0, MAX_UINT32);
    var _ :- CheckUint(f.awarenessClientId, 0, MAX_UINT32);
    var _ :- CheckUint(f.permissions, 0, 0xff);
    if f.permissions % 2 == 0 then Err(InvalidField) else Ok(())
  }

  function CheckControl(f: Frame): Checked
    requires f.Control?
  {
    var _ :- CheckUint(f.generation, 0, MAX_SAFE_INTEGER);
    if !(1 <= f.code <= 12) then Err(UnsupportedMessage)
    else
      var _ :- CheckLength(f.payload, 0, MAX_CONTROL_PAYLOAD_BYTES);
      var _ :- if f.key.Some? then CheckText(f.key.value, MAX_DOCUMENT_KEY_BYTES) else Ok(());
      if f.id.Some? then CheckMessageId(f.id.value) else Ok(())
  }

  function CheckChunk(f: Frame): Checked
    requires f.Chunk?
  {
    var _ :- CheckMessageId(f.messageId);
    if f.innerType != SYNC_STEP2_TYPE && f.innerType != UPDATE_TYPE then Err(UnsupportedMessage)
    else
      var _ :- CheckUint(f.chunkCount, 2, MAX_CHUNK_COUNT);
      var _ :- CheckUint(f.chunkIndex, 0, f.chunkCount - 1);
      var _ :- CheckUint(f.totalLength, 1, MAX_REASSEMBLED_BYTES);
      var _ :- CheckLength(f.payload, 1, MAX_CHUNK_PAYLOAD_BYTES);
      if f.totalLength <= |f.payload| then Err(InvalidLength)
      else
        var minimumChunks := (f.totalLength + MAX_CHUNK_PAYLOAD_BYTES - 1) / MAX_CHUNK_PAYLOAD_BYTES;
        if f.chunkCount < minimumChunks || f.chunkCount > f.totalLength then Err(InvalidLength) else Ok(())
  }

  function Check(f: Frame): Checked {
    match f
    case Auth(_, _, _, _, _) => CheckAuth(f)
    case Ready(_, _, _, _, _) => CheckReady(f)
    case SyncStep1(generation, docKey, stateVector) =>
      var _ :- CheckDocument(generation, docKey);
      CheckLength(stateVector, 1, MAX_STATE_VECTOR_BYTES)
    case SyncStep2(generation, docKey, update) =>
      var _ :- CheckDocument(generation, docKey);
      CheckLength(update, 1, MAX_UPDATE_BYTES)
    case Update(generation, docKey, messageId, update) =>
      var _ :- CheckDocument(generation, docKey);
      var _ :- CheckMessageId(messageId);
      CheckLength(update, 1, MAX_UPDATE_BYTES)
    case Ack(generation, docKey, messageId, durableSequence) =>
      var _ :- CheckDocument(generation, docKey);
      var _ :- CheckMessageId(messageId);
      CheckUint(durableSequence, 1, MAX_SAFE_INTEGER)
    case Awareness(generation, docKey, awarenessClientId, update) =>
      var _ :- CheckDocument(generation, docKey);
      var _ :- CheckUint(awarenessClientId, 0, MAX_UINT32);
      CheckLength(update, 1, MAX_AWARENESS_BYTES)
    case Control(_, _, _, _, _) => CheckControl(f)
    case Chunk(_, _, _, _, _, _) => CheckChunk(f)
  }

  // ----- the wire form

  function TypeOf(f: Frame): Byte {
    match f
    case Auth(_, _, _, _, _) => 1
    case Ready(_, _, _, _, _) => 2
    case SyncStep1(_, _, _) => 3
    case SyncStep2(_, _, _) => 4
    case Update(_, _, _, _) => 5
    case Ack(_, _, _, _) => 6
    case Awareness(_, _, _, _) => 7
    case Control(_, _, _, _, _) => 8
    case Chunk(_, _, _, _, _, _) => 9
  }

  function Header(f: Frame): Bytes {
    PROTOCOL_MAGIC + [PROTOCOL_VERSION, TypeOf(f)]
  }

  function PutByte(v: int, tail: Bytes): Bytes {
    if 0 <= v < 0x100 then [v] + tail else tail
  }

  function PutDocument(generation: int, docKey: Utf8, tail: Bytes): Bytes {
    PutVar(generation, PutVarBytes(docKey, tail))
  }

  function ControlFlags(f: Frame): Byte
    requires f.Control?
  {
    (if f.key.Some? then 1 else 0) + (if f.id.Some? then 2 else 0)
  }

  /** The fields after the header, in front of a tail. */
  function PutBody(f: Frame, tail: Bytes): Bytes {
    match f
    case Auth(ticket, generation, minSchemaVersion, maxSchemaVersion, capabilities) =>
      PutVar(generation, PutVar(minSchemaVersion, PutVar(maxSchemaVersion, PutVar(capabilities, PutVarBytes(ticket, tail)))))
    case Ready(generation, schemaVersion, capabilities, awarenessClientId, permissions) =>
      PutVar(generation, PutVar(schemaVersion, PutVar(capabilities, PutVar(awarenessClientId, PutVar(permissions, tail)))))
    case SyncStep1(generation, docKey, stateVector) => PutDocument(generation, docKey, PutVarBytes(stateVector, tail))
    case SyncStep2(generation, docKey, update) => PutDocument(generation, docKey, PutVarBytes(update, tail))
    case Update(generation, docKey, messageId, update) =>
      PutDocument(generation, docKey, messageId + PutVarBytes(update, tail))
    case Ack(generation, docKey, messageId, durableSequence) =>
      PutDocument(generation, docKey, messageId + PutVar(durableSequence, tail))
    case Awareness(generation, docKey, awarenessClientId, update) =>
      PutDocument(generation, docKey, PutVar(awarenessClientId, PutVarBytes(update, tail)))
    case Control(generation, code, key, id, payload) =>
      PutVar(generation, PutVar(code, PutByte(ControlFlags(f), PutOptions(key, id, PutVarBytes(payload, tail)))))
    case Chunk(messageId, innerType, chunkIndex, chunkCount, totalLength, payload) =>
      messageId + PutByte(innerType, PutVar(chunkIndex, PutVar(chunkCount, PutVar(totalLength, PutVarBytes(payload, tail)))))
  }

  function PutOptions(key: Option<Utf8>, id: Option<Bytes>, tail: Bytes): Bytes {
    var rest := if id.Some? then id.value + tail else tail;
    if key.Some? then PutVarBytes(key.value, rest) else rest
  }

  function Encode(f: Frame): Result<Bytes, ErrorCode> {
    var _ :- Check(f);
    var bytes := Header(f) + PutBody(f, []);
    if |bytes| > MAX_ENCODED_FRAME_BYTES then Err(FrameTooLarge) else Ok(bytes)
  }

  // ----- reading the wire form; `strip` is whether the text decoder drops a byte order mark

  function ReadByte(s: Bytes): Reading<int> {
    if s == [] then Err(Truncated) else Ok(Parsed(s[0], s[1..]))
  }

  function ReadUtf8(s: Bytes, max: int, strip: bool): Reading<Utf8> {
    var p :- ReadVarBytes(s, 1, max);
    if !ValidUtf8(p.value) then Err(InvalidUtf8)
    else Ok(Parsed(if strip then DropBom(p.value) else p.value, p.rest))
  }

  function ReadText(s: Bytes, max: int, strip: bool): Reading<Utf8> {
    var p :- ReadUtf8(s, max, strip);
    if HasControls(p.value) then Err(InvalidField) else Ok(p)
  }

  function ReadDocKey(s: Bytes, strip: bool): Reading<Utf8> {
    ReadText(s, MAX_DOCUMENT_KEY_BYTES, strip)
  }

  function ReadGeneration(s: Bytes): Reading<int> {
    ReadVarUint(s, 0, MAX_SAFE_INTEGER)
  }

  function ReadMessageId(s: Bytes): Reading<Bytes> {
    ReadBytes(s, MESSAGE_ID_BYTES)
  }

  function ReadAuth(s: Bytes, strip: bool): Reading<Frame> {
    var generation :- ReadGeneration(s);
    var minSchemaVersion :- ReadVarUint(generation.rest, 1, MAX_SCHEMA_VERSION);
    var maxSchemaVersion :- ReadVarUint(minSchemaVersion.rest, 1, MAX_SCHEMA_VERSION);
    if minSchemaVersion.value > maxSchemaVersion.value then Err(InvalidField)
    else
      var capabilities :- ReadVarUint(maxSchemaVersion.rest, 0, MAX_UINT32);
      var ticket :- ReadText(capabilities.rest, MAX_TICKET_BYTES, strip);
      Ok(Parsed(Auth(ticket.value, generation.value, minSchemaVersion.value, maxSchemaVersion.value, capabilities.value), ticket.rest))
  }

  function ReadReady(s: Bytes): Reading<Frame> {
    var generation :- ReadGeneration(s);
    var schemaVersion :- ReadVarUint(generation.rest, 1, MAX_SCHEMA_VERSION);
    var capabilities :- ReadVarUint(schemaVersion.rest, 0, MAX_UINT32);
    var awarenessClientId :- ReadVarUint(capabilities.rest, 0, MAX_UINT32);
    var permissions :- ReadVarUint(awarenessClientId.rest, 0, 0xff);
    if permissions.value % 2 == 0 then Err(InvalidField)
    else Ok(Parsed(Ready(generation.value, schemaVersion.value, capabilities.value, awarenessClientId.value, permissions.value),
                   permissions.rest))
  }

  function ReadSyncStep1(s: Bytes, strip: bool): Reading<Frame> {
    var generation :- ReadGeneration(s);
    var docKey :- ReadDocKey(generation.rest, strip);
    ReadSyncStep1Rest(generation.value, docKey.value, docKey.rest)
  }

  function ReadSyncStep1Rest(generation: int, docKey: Utf8, s: Bytes): Reading<Frame> {
    var stateVector :- ReadVarBytes(s, 1, MAX_STATE_VECTOR_BYTES);
    Ok(Parsed(SyncStep1(generation, docKey, stateVector.value), stateVector.rest))
  }

  function ReadSyncStep2(s: Bytes, strip: bool): Reading<Frame> {
    var generation :- ReadGeneration(s);
    var docKey :- ReadDocKey(generation.rest, strip);
    ReadSyncStep2Rest(generation.value, docKey.value, docKey.rest)
  }

  function ReadSyncStep2Rest(generation: int, docKey: Utf8, s: Bytes): Reading<Frame> {
    var update :- ReadVarBytes(s, 1, MAX_UPDATE_BYTES);
    Ok(Parsed(SyncStep2(generation, docKey, update.value), update.rest))
  }

  function ReadUpdate(s: Bytes, strip: bool): Reading<Frame> {
    var generation :- ReadGeneration(s);
    var docKey :- ReadDocKey(generation.rest, strip);
    ReadUpdateRest(generation.value, docKey.value, docKey.rest)
  }

  function ReadUpdateRest(generation: int, docKey: Utf8, s: Bytes): Reading<Frame> {
    var messageId :- ReadMessageId(s);
    var update :- ReadVarBytes(messageId.rest, 1, MAX_UPDATE_BYTES);
    Ok(Parsed(Update(generation, docKey, messageId.value, update.value), update.rest))
  }

  function ReadAck(s: Bytes, strip: bool): Reading<Frame> {
    var generation :- ReadGeneration(s);
    var docKey :- ReadDocKey(generation.rest, strip);
    ReadAckRest(generation.value, docKey.value, docKey.rest)
  }

  function ReadAckRest(generation: int, docKey: Utf8, s: Bytes): Reading<Frame> {
    var messageId :- ReadMessageId(s);
    var durableSequence :- ReadVarUint(messageId.rest, 1, MAX_SAFE_INTEGER);
    Ok(Parsed(Ack(generation, docKey, messageId.value, durableSequence.value), durableSequence.rest))
  }

  function ReadAwareness(s: Bytes, strip: bool): Reading<Frame> {
    var generation :- ReadGeneration(s);
    var docKey :- ReadDocKey(generation.rest, strip);
    ReadAwarenessRest(generation.value, docKey.value, docKey.rest)
  }

  function ReadAwarenessRest(generation: int, docKey: Utf8, s: Bytes): Reading<Frame> {
    var awarenessClientId :- ReadVarUint(s, 0, MAX_UINT32);
    var update :- ReadVarBytes(awarenessClientId.rest, 1, MAX_AWARENESS_BYTES);
    Ok(Parsed(Awareness(generation, docKey, awarenessClientId.value, update.value), update.rest))
  }

  function ReadOptionalKey(s: Bytes, present: bool, strip: bool): Reading<Option<Utf8>> {
    if !present then Ok(Parsed(None, s))
    else
      var key :- ReadDocKey(s, strip);
      Ok(Parsed(Some(key.value), key.rest))
  }

  function ReadOptionalId(s: Bytes, present: bool): Reading<Option<Bytes>> {
    if !present then Ok(Parsed(None, s))
    else
      var id :- ReadMessageId(s);
      Ok(Parsed(Some(id.value), id.rest))
  }

  function ReadControl(s: Bytes, strip: bool): Reading<Frame> {
    var generation :- ReadGeneration(s);
    var code :- ReadVarUint(generation.rest, 0, 0xff);
    if !(1 <= code.value <= 12) then Err(UnsupportedMessage)
    else
      var flags :- ReadByte(code.rest);
      if flags.value > 3 then Err(InvalidField)
      else ReadControlRest(generation.value, code.value, flags.value, flags.rest, strip)
  }

  function ReadControlRest(generation: int, code: int, flags: int, s: Bytes, strip: bool): Reading<Frame> {
    var key :- ReadOptionalKey(s, flags % 2 == 1, strip);
    ReadControlEnd(generation, code, flags, key.value, key.rest)
  }

  function ReadControlEnd(generation: int, code: int, flags: int, key: Option<Utf8>, s: Bytes): Reading<Frame> {
    var id :- ReadOptionalId(s, flags / 2 == 1);
    var payload :- ReadVarBytes(id.rest, 0, MAX_CONTROL_PAYLOAD_BYTES);
    Ok(Parsed(Control(generation, code, key, id.value, payload.value), payload.rest))
  }

  function ReadChunk(s: Bytes): Reading<Frame> {
    var messageId :- ReadMessageId(s);
    var innerType :- ReadByte(messageId.rest);
    var chunkIndex :- ReadVarUint(innerType.rest, 0, MAX_CHUNK_COUNT - 1);
    var chunkCount :- ReadVarUint(chunkIndex.rest, 2, MAX_CHUNK_COUNT);
    var totalLength :- ReadVarUint(chunkCount.rest, 1, MAX_REASSEMBLED_BYTES);
    var payload :- ReadVarBytes(totalLength.rest, 1, MAX_CHUNK_PAYLOAD_BYTES);
    var frame := Chunk(messageId.value, innerType.value, chunkIndex.value, chunkCount.value, totalLength.value, payload.value);
    var _ :- CheckChunk(frame);
    Ok(Parsed(frame, payload.rest))
  }

  function ReadBody(frameType: int, s: Bytes, strip: bool): Reading<Frame> {
    if frameType == 1 then ReadAuth(s, strip)
    else if frameType == 2 then ReadReady(s)
    else if frameType == 3 then ReadSyncStep1(s, strip)
    else if frameType == 4 then ReadSyncStep2(s, strip)
    else if frameType == 5 then ReadUpdate(s, strip)
    else if frameType == 6 then ReadAck(s, strip)
    else if frameType == 7 then ReadAwareness(s, strip)
    else if frameType == 8 then ReadControl(s, strip)
    else if frameType == 9 then ReadChunk(s)
    else Err(UnsupportedMessage)
  }

  function Parse(bytes: Bytes, strip: bool): Result<Frame, ErrorCode> {
    if |bytes| > MAX_ENCODED_FRAME_BYTES then Err(FrameTooLarge)
    else
      var magic :- ReadBytes(bytes, 4);
      if magic.value != PROTOCOL_MAGIC then Err(InvalidMagic)
      else
        var version :- ReadByte(magic.rest);
        if version.value != PROTOCOL_VERSION then Err(UnsupportedVersion)
        else
          var frameType :- ReadByte(version.rest);
          var frame :- ReadBody(frameType.value, frameType.rest, strip);
          if frame.rest != [] then Err(TrailingData) else Ok(frame.value)
  }

  /** What the decoder returns. */
  function Decode(bytes: Bytes): Result<Frame, ErrorCode> {
    Parse(bytes, true)
  }

  /** The frame as it is on the wire, byte order marks included. */
  function Wire(bytes: Bytes): Result<Frame, ErrorCode> {
    Parse(bytes, false)
  }
}
