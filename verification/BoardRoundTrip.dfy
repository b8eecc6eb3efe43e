/** The frame codec is a bijection between checked frames and accepted byte sequences. */
module BoardRoundTrip {
  import opened BoardFrames
  import opened Leb128
  import opened Utf8Text
  import opened Wrappers

  // ----- fields

  lemma ReadPutByte(v: int, tail: Bytes)
    requires 0 <= v < 0x100
    ensures ReadByte(PutByte(v, tail)) == Ok(Parsed(v, tail))
  {
  }

  lemma ReadPutText(text: Utf8, tail: Bytes, max: nat)
    requires CheckText(text, max).Ok? && max <= MAX_SAFE_INTEGER
    ensures ReadText(PutVarBytes(text, tail), max, false) == Ok(Parsed(text, tail))
  {
    ReadPutVarBytes(text, tail, 1, max);
  }

  lemma ReadPutGeneration(generation: int, tail: Bytes)
    requires CheckUint(generation, 0, MAX_SAFE_INTEGER).Ok?
    ensures ReadGeneration(PutVar(generation, tail)) == Ok(Parsed(generation, tail))
  {
    ReadPutVar(generation, tail, 0, MAX_SAFE_INTEGER);
  }

  lemma ReadPutDocument(generation: int, docKey: Utf8, tail: Bytes)
    requires CheckDocument(generation, docKey).Ok?
    ensures var s := PutDocument(generation, docKey, tail);
      ReadGeneration(s) == Ok(Parsed(generation, PutVarBytes(docKey, tail)))
    ensures ReadDocKey(PutVarBytes(docKey, tail), false) == Ok(Parsed(docKey, tail))
  {
    ReadPutGeneration(generation, PutVarBytes(docKey, tail));
    ReadPutText(docKey, tail, MAX_DOCUMENT_KEY_BYTES);
  }

  // ----- reading what was written

  lemma AuthReads(f: Frame, tail: Bytes)
    requires f.Auth? && Check(f).Ok?
    ensures ReadAuth(PutBody(f, tail), false) == Ok(Parsed(f, tail))
  {
    ReadPutText(f.ticket, tail, MAX_TICKET_BYTES);
    var s4 := PutVarBytes(f.ticket, tail);
    var s3 := PutVar(f.capabilities, s4);
    var s2 := PutVar(f.maxSchemaVersion, s3);
    var s1 := PutVar(f.minSchemaVersion, s2);
    ReadPutVar(f.capabilities, s4, 0, MAX_UINT32);
    ReadPutVar(f.maxSchemaVersion, s3, 1, MAX_SCHEMA_VERSION);
    ReadPutVar(f.minSchemaVersion, s2, 1, MAX_SCHEMA_VERSION);
    ReadPutGeneration(f.generation, s1);
  }

  lemma ReadyReads(f: Frame, tail: Bytes)
    requires f.Ready? && Check(f).Ok?
    ensures ReadReady(PutBody(f, tail)) == Ok(Parsed(f, tail))
  {
    var s4 := PutVar(f.permissions, tail);
    var s3 := PutVar(f.awarenessClientId, s4);
    var s2 := PutVar(f.capabilities, s3);
    var s1 := PutVar(f.schemaVersion, s2);
    ReadPutVar(f.permissions, tail, 0, 0xff);
    ReadPutVar(f.awarenessClientId, s4, 0, MAX_UINT32);
    ReadPutVar(f.capabilities, s3, 0, MAX_UINT32);
    ReadPutVar(f.schemaVersion, s2, 1, MAX_SCHEMA_VERSION);
    ReadPutGeneration(f.generation, s1);
  }

  lemma SyncStep1Reads(f: Frame, tail: Bytes)
    requires f.SyncStep1? && Check(f).Ok?
    ensures ReadSyncStep1(PutBody(f, tail), false) == Ok(Parsed(f, tail))
  {
    var s1 := PutVarBytes(f.stateVector, tail);
    ReadPutVarBytes(f.stateVector, tail, 1, MAX_STATE_VECTOR_BYTES);
    ReadPutDocument(f.generation, f.docKey, s1);
  }

  lemma SyncStep2Reads(f: Frame, tail: Bytes)
    requires f.SyncStep2? && Check(f).Ok?
    ensures ReadSyncStep2(PutBody(f, tail), false) == Ok(Parsed(f, tail))
  {
    var s1 := PutVarBytes(f.update, tail);
    ReadPutVarBytes(f.update, tail, 1, MAX_UPDATE_BYTES);
    ReadPutDocument(f.generation, f.docKey, s1);
  }

  lemma UpdateReads(f: Frame, tail: Bytes)
    requires f.Update? && Check(f).Ok?
    ensures ReadUpdate(PutBody(f, tail), false) == Ok(Parsed(f, tail))
  {
    var s2 := PutVarBytes(f.update, tail);
    ReadPutVarBytes(f.update, tail, 1, MAX_UPDATE_BYTES);
    ReadPutBytes(f.messageId, s2);
    ReadPutDocument(f.generation, f.docKey, f.messageId + s2);
  }

  lemma AckReads(f: Frame, tail: Bytes)
    requires f.Ack? && Check(f).Ok?
    ensures ReadAck(PutBody(f, tail), false) == Ok(Parsed(f, tail))
  {
    var s2 := PutVar(f.durableSequence, tail);
    ReadPutVar(f.durableSequence, tail, 1, MAX_SAFE_INTEGER);
    ReadPutBytes(f.messageId, s2);
    ReadPutDocument(f.generation, f.docKey, f.messageId + s2);
  }

  lemma AwarenessReads(f: Frame, tail: Bytes)
    requires f.Awareness? && Check(f).Ok?
    ensures ReadAwareness(PutBody(f, tail), false) == Ok(Parsed(f, tail))
  {
    var s2 := PutVarBytes(f.update, tail);
    ReadPutVarBytes(f.update, tail, 1, MAX_AWARENESS_BYTES);
    ReadPutVar(f.awarenessClientId, s2, 0, MAX_UINT32);
    ReadPutDocument(f.generation, f.docKey, PutVar(f.awarenessClientId, s2));
  }

  lemma OptionsRead(key: Option<Utf8>, id: Option<Bytes>, tail: Bytes)
    requires key.Some? ==> CheckText(key.value, MAX_DOCUMENT_KEY_BYTES).Ok?
    requires id.Some? ==> CheckMessageId(id.value).Ok?
    ensures var rest := PutOptions(None, id, tail);
      && ReadOptionalKey(PutOptions(key, id, tail), key.Some?, false) == Ok(Parsed(key, rest))
      && ReadOptionalId(rest, id.Some?) == Ok(Parsed(id, tail))
  {
    var rest := PutOptions(None, id, tail);
    if key.Some? {
      ReadPutText(key.value, rest, MAX_DOCUMENT_KEY_BYTES);
    }
    if id.Some? {
      ReadPutBytes(id.value, tail);
    }
  }

  lemma ControlReads(f: Frame, tail: Bytes)
    requires f.Control? && Check(f).Ok?
    ensures ReadControl(PutBody(f, tail), false) == Ok(Parsed(f, tail))
  {
    var s3 := PutVarBytes(f.payload, tail);
    var s2 := PutOptions(f.key, f.id, s3);
    var s1 := PutByte(ControlFlags(f), s2);
    ReadPutVarBytes(f.payload, tail, 0, MAX_CONTROL_PAYLOAD_BYTES);
    OptionsRead(f.key, f.id, s3);
    ReadPutByte(ControlFlags(f), s2);
    ReadPutVar(f.code, s1, 0, 0xff);
    ReadPutGeneration(f.generation, PutVar(f.code, s1));
  }

  lemma ChunkReads(f: Frame, tail: Bytes)
    requires f.Chunk? && Check(f).Ok?
    ensures ReadChunk(PutBody(f, tail)) == Ok(Parsed(f, tail))
  {
    var s4 := PutVarBytes(f.payload, tail);
    var s3 := PutVar(f.totalLength, s4);
    var s2 := PutVar(f.chunkCount, s3);
    var s1 := PutVar(f.chunkIndex, s2);
    ReadPutVarBytes(f.payload, tail, 1, MAX_CHUNK_PAYLOAD_BYTES);
    ReadPutVar(f.totalLength, s4, 1, MAX_REASSEMBLED_BYTES);
    ReadPutVar(f.chunkCount, s3, 2, MAX_CHUNK_COUNT);
    ReadPutVar(f.chunkIndex, s2, 0, MAX_CHUNK_COUNT - 1);
    ReadPutByte(f.innerType, s1);
    ReadPutBytes(f.messageId, PutByte(f.innerType, s1));
  }

  /** The reader that the type byte selects. */
  lemma ReaderByType(frameType: int, s: Bytes, p: Parsed<Frame>)
    ensures frameType == 1 && ReadAuth(s, false) == Ok(p) ==> ReadBody(frameType, s, false) == Ok(p)
    ensures frameType == 2 && ReadReady(s) == Ok(p) ==> ReadBody(frameType, s, false) == Ok(p)
    ensures frameType == 3 && ReadSyncStep1(s, false) == Ok(p) ==> ReadBody(frameType, s, false) == Ok(p)
    ensures frameType == 4 && ReadSyncStep2(s, false) == Ok(p) ==> ReadBody(frameType, s, false) == Ok(p)
    ensures frameType == 5 && ReadUpdate(s, false) == Ok(p) ==> ReadBody(frameType, s, false) == Ok(p)
    ensures frameType == 6 && ReadAck(s, false) == Ok(p) ==> ReadBody(frameType, s, false) == Ok(p)
    ensures frameType == 7 && ReadAwareness(s, false) == Ok(p) ==> ReadBody(frameType, s, false) == Ok(p)
    ensures frameType == 8 && ReadControl(s, false) == Ok(p) ==> ReadBody(frameType, s, false) == Ok(p)
    ensures frameType == 9 && ReadChunk(s) == Ok(p) ==> ReadBody(frameType, s, false) == Ok(p)
  {
  }

  lemma AuthBodyReads(f: Frame, tail: Bytes, body: Bytes)
    requires f.Auth? && Check(f).Ok? && body == PutBody(f, tail)
    ensures ReadBody(TypeOf(f), body, false) == Ok(Parsed(f, tail))
  {
    AuthReads(f, tail);
    ReaderByType(1, body, Parsed(f, tail));
  }

  lemma ReadyBodyReads(f: Frame, tail: Bytes, body: Bytes)
    requires f.Ready? && Check(f).Ok? && body == PutBody(f, tail)
    ensures ReadBody(TypeOf(f), body, false) == Ok(Parsed(f, tail))
  {
    ReadyReads(f, tail);
    ReaderByType(2, body, Parsed(f, tail));
  }

  lemma SyncStep1BodyReads(f: Frame, tail: Bytes, body: Bytes)
    requires f.SyncStep1? && Check(f).Ok? && body == PutBody(f, tail)
    ensures ReadBody(TypeOf(f), body, false) == Ok(Parsed(f, tail))
  {
    SyncStep1Reads(f, tail);
    ReaderByType(3, body, Parsed(f, tail));
  }

  lemma SyncStep2BodyReads(f: Frame, tail: Bytes, body: Bytes)
    requires f.SyncStep2? && Check(f).Ok? && body == PutBody(f, tail)
    ensures ReadBody(TypeOf(f), body, false) == Ok(Parsed(f, tail))
  {
    SyncStep2Reads(f, tail);
    ReaderByType(4, body, Parsed(f, tail));
  }

  lemma UpdateBodyReads(f: Frame, tail: Bytes, body: Bytes)
    requires f.Update? && Check(f).Ok? && body == PutBody(f, tail)
    ensures ReadBody(TypeOf(f), body, false) == Ok(Parsed(f, tail))
  {
    UpdateReads(f, tail);
    ReaderByType(5, body, Parsed(f, tail));
  }

  lemma AckBodyReads(f: Frame, tail: Bytes, body: Bytes)
    requires f.Ack? && Check(f).Ok? && body == PutBody(f, tail)
    ensures ReadBody(TypeOf(f), body, false) == Ok(Parsed(f, tail))
  {
    AckReads(f, tail);
    ReaderByType(6, body, Parsed(f, tail));
  }

  lemma AwarenessBodyReads(f: Frame, tail: Bytes, body: Bytes)
    requires f.Awareness? && Check(f).Ok? && body == PutBody(f, tail)
    ensures ReadBody(TypeOf(f), body, false) == Ok(Parsed(f, tail))
  {
    AwarenessReads(f, tail);
    ReaderByType(7, body, Parsed(f, tail));
  }

  lemma ControlBodyReads(f: Frame, tail: Bytes, body: Bytes)
    requires f.Control? && Check(f).Ok? && body == PutBody(f, tail)
    ensures ReadBody(TypeOf(f), body, false) == Ok(Parsed(f, tail))
  {
    ControlReads(f, tail);
    ReaderByType(8, body, Parsed(f, tail));
  }

  lemma ChunkBodyReads(f: Frame, tail: Bytes, body: Bytes)
    requires f.Chunk? && Check(f).Ok? && body == PutBody(f, tail)
    ensures ReadBody(TypeOf(f), body, false) == Ok(Parsed(f, tail))
  {
    ChunkReads(f, tail);
    ReaderByType(9, body, Parsed(f, tail));
  }

  lemma BodyReads(f: Frame, tail: Bytes, body: Bytes)
    requires Check(f).Ok? && body == PutBody(f, tail)
    ensures ReadBody(TypeOf(f), body, false) == Ok(Parsed(f, tail))
  {
    match f
    case Auth(_, _, _, _, _) => AuthBodyReads(f, tail, body);
    case Ready(_, _, _, _, _) => ReadyBodyReads(f, tail, body);
    case SyncStep1(_, _, _) => SyncStep1BodyReads(f, tail, body);
    case SyncStep2(_, _, _) => SyncStep2BodyReads(f, tail, body);
    case Update(_, _, _, _) => UpdateBodyReads(f, tail, body);
    case Ack(_, _, _, _) => AckBodyReads(f, tail, body);
    case Awareness(_, _, _, _) => AwarenessBodyReads(f, tail, body);
    case Control(_, _, _, _, _) => ControlBodyReads(f, tail, body);
    case Chunk(_, _, _, _, _, _) => ChunkBodyReads(f, tail, body);
  }

  // ----- writing what was read

  ghost predicate VarAt(s: Bytes, p: Parsed<int>, min: int, max: int) {
    s == PutVar(p.value, p.rest) && CheckUint(p.value, min, max).Ok?
  }

  ghost predicate BytesAt(s: Bytes, p: Parsed<Bytes>, min: int, max: int) {
    s == PutVarBytes(p.value, p.rest) && CheckLength(p.value, min, max).Ok?
  }

  ghost predicate TextAt(s: Bytes, p: Parsed<Utf8>, max: int) {
    s == PutVarBytes(p.value, p.rest) && CheckText(p.value, max).Ok?
  }

  ghost predicate IdAt(s: Bytes, p: Parsed<Bytes>) {
    s == p.value + p.rest && CheckMessageId(p.value).Ok?
  }

  ghost predicate ByteAt(s: Bytes, p: Parsed<int>) {
    s == PutByte(p.value, p.rest) && 0 <= p.value < 0x100
  }

  ghost predicate KeyAt(s: Bytes, p: Parsed<Option<Utf8>>) {
    if p.value.Some? then TextAt(s, Parsed(p.value.value, p.rest), MAX_DOCUMENT_KEY_BYTES) else s == p.rest
  }

  ghost predicate OptionalIdAt(s: Bytes, p: Parsed<Option<Bytes>>) {
    if p.value.Some? then IdAt(s, Parsed(p.value.value, p.rest)) else s == p.rest
  }

  lemma VarRead(s: Bytes, p: Parsed<int>, min: int, max: int)
    requires ReadVarUint(s, min, max) == Ok(p)
    ensures VarAt(s, p, min, max)
  {
    PutReadVar(s, min, max);
  }

  lemma GenerationRead(s: Bytes, p: Parsed<int>)
    requires ReadGeneration(s) == Ok(p)
    ensures VarAt(s, p, 0, MAX_SAFE_INTEGER)
  {
    PutReadVar(s, 0, MAX_SAFE_INTEGER);
  }

  lemma BytesRead(s: Bytes, p: Parsed<Bytes>, min: nat, max: int)
    requires ReadVarBytes(s, min, max) == Ok(p)
    ensures BytesAt(s, p, min, max)
  {
    PutReadVarBytes(s, min, max);
  }

  lemma TextRead(s: Bytes, p: Parsed<Utf8>, max: int)
    requires ReadText(s, max, false) == Ok(p)
    ensures TextAt(s, p, max)
  {
    PutReadVarBytes(s, 1, max);
  }

  lemma KeyRead(s: Bytes, p: Parsed<Utf8>)
    requires ReadDocKey(s, false) == Ok(p)
    ensures TextAt(s, p, MAX_DOCUMENT_KEY_BYTES)
  {
    TextRead(s, p, MAX_DOCUMENT_KEY_BYTES);
  }

  lemma IdRead(s: Bytes, p: Parsed<Bytes>)
    requires ReadMessageId(s) == Ok(p)
    ensures IdAt(s, p)
  {
  }

  lemma ByteRead(s: Bytes, p: Parsed<int>)
    requires ReadByte(s) == Ok(p)
    ensures ByteAt(s, p)
  {
  }

  lemma OptionalKeyRead(s: Bytes, p: Parsed<Option<Utf8>>, present: bool)
    requires ReadOptionalKey(s, present, false) == Ok(p)
    ensures p.value.Some? == present && KeyAt(s, p)
  {
    if present {
      KeyRead(s, ReadDocKey(s, false).value);
    }
  }

  lemma OptionalIdRead(s: Bytes, p: Parsed<Option<Bytes>>, present: bool)
    requires ReadOptionalId(s, present) == Ok(p)
    ensures p.value.Some? == present && OptionalIdAt(s, p)
  {
  }

  /** The frame passes its checks, and writing it gives back the bytes read. */
  ghost predicate Rewrites(frameType: int, s: Bytes, p: Parsed<Frame>) {
    Check(p.value).Ok? && TypeOf(p.value) == frameType && s == PutBody(p.value, p.rest)
  }

  lemma AuthParts(s: Bytes, g: Parsed<int>, low: Parsed<int>, high: Parsed<int>, c: Parsed<int>, t: Parsed<Utf8>)
    requires VarAt(s, g, 0, MAX_SAFE_INTEGER) && VarAt(g.rest, low, 1, MAX_SCHEMA_VERSION) && VarAt(low.rest, high, 1, MAX_SCHEMA_VERSION)
    requires low.value <= high.value && VarAt(high.rest, c, 0, MAX_UINT32) && TextAt(c.rest, t, MAX_TICKET_BYTES)
    ensures Rewrites(1, s, Parsed(Auth(t.value, g.value, low.value, high.value, c.value), t.rest))
  {
  }

  lemma AuthWrites(s: Bytes)
    requires ReadAuth(s, false).Ok?
    ensures Rewrites(1, s, ReadAuth(s, false).value)
  {
    var g := ReadGeneration(s).value;
    var low := ReadVarUint(g.rest, 1, MAX_SCHEMA_VERSION).value;
    var high := ReadVarUint(low.rest, 1, MAX_SCHEMA_VERSION).value;
    var c := ReadVarUint(high.rest, 0, MAX_UINT32).value;
    var t := ReadText(c.rest, MAX_TICKET_BYTES, false).value;
    GenerationRead(s, g);
    VarRead(g.rest, low, 1, MAX_SCHEMA_VERSION);
    VarRead(low.rest, high, 1, MAX_SCHEMA_VERSION);
    VarRead(high.rest, c, 0, MAX_UINT32);
    TextRead(c.rest, t, MAX_TICKET_BYTES);
    AuthParts(s, g, low, high, c, t);
  }

  lemma ReadyParts(s: Bytes, g: Parsed<int>, v: Parsed<int>, c: Parsed<int>, a: Parsed<int>, q: Parsed<int>)
    requires VarAt(s, g, 0, MAX_SAFE_INTEGER) && VarAt(g.rest, v, 1, MAX_SCHEMA_VERSION) && VarAt(v.rest, c, 0, MAX_UINT32)
    requires VarAt(c.rest, a, 0, MAX_UINT32) && VarAt(a.rest, q, 0, 0xff) && q.value % 2 != 0
    ensures Rewrites(2, s, Parsed(Ready(g.value, v.value, c.value, a.value, q.value), q.rest))
  {
  }

  lemma ReadyWrites(s: Bytes)
    requires ReadReady(s).Ok?
    ensures Rewrites(2, s, ReadReady(s).value)
  {
    var g := ReadGeneration(s).value;
    var v := ReadVarUint(g.rest, 1, MAX_SCHEMA_VERSION).value;
    var c := ReadVarUint(v.rest, 0, MAX_UINT32).value;
    var a := ReadVarUint(c.rest, 0, MAX_UINT32).value;
    var q := ReadVarUint(a.rest, 0, 0xff).value;
    GenerationRead(s, g);
    VarRead(g.rest, v, 1, MAX_SCHEMA_VERSION);
    VarRead(v.rest, c, 0, MAX_UINT32);
    VarRead(c.rest, a, 0, MAX_UINT32);
    VarRead(a.rest, q, 0, 0xff);
    ReadyParts(s, g, v, c, a, q);
  }

  lemma SyncParts(s: Bytes, g: Parsed<int>, d: Parsed<Utf8>, b: Parsed<Bytes>)
    requires VarAt(s, g, 0, MAX_SAFE_INTEGER) && TextAt(g.rest, d, MAX_DOCUMENT_KEY_BYTES)
    ensures BytesAt(d.rest, b, 1, MAX_STATE_VECTOR_BYTES) ==> Rewrites(3, s, Parsed(SyncStep1(g.value, d.value, b.value), b.rest))
    ensures BytesAt(d.rest, b, 1, MAX_UPDATE_BYTES) ==> Rewrites(4, s, Parsed(SyncStep2(g.value, d.value, b.value), b.rest))
  {
  }

  lemma SyncStep1Writes(s: Bytes)
    requires ReadSyncStep1(s, false).Ok?
    ensures Rewrites(3, s, ReadSyncStep1(s, false).value)
  {
    var g := ReadGeneration(s).value;
    var d := ReadDocKey(g.rest, false).value;
    var b := ReadVarBytes(d.rest, 1, MAX_STATE_VECTOR_BYTES).value;
    GenerationRead(s, g);
    KeyRead(g.rest, d);
    BytesRead(d.rest, b, 1, MAX_STATE_VECTOR_BYTES);
    SyncParts(s, g, d, b);
  }

  lemma SyncStep2Writes(s: Bytes)
    requires ReadSyncStep2(s, false).Ok?
    ensures Rewrites(4, s, ReadSyncStep2(s, false).value)
  {
    var g := ReadGeneration(s).value;
    var d := ReadDocKey(g.rest, false).value;
    var b := ReadVarBytes(d.rest, 1, MAX_UPDATE_BYTES).value;
    GenerationRead(s, g);
    KeyRead(g.rest, d);
    BytesRead(d.rest, b, 1, MAX_UPDATE_BYTES);
    SyncParts(s, g, d, b);
  }

  lemma UpdateParts(s: Bytes, g: Parsed<int>, d: Parsed<Utf8>, m: Parsed<Bytes>, u: Parsed<Bytes>)
    requires VarAt(s, g, 0, MAX_SAFE_INTEGER) && TextAt(g.rest, d, MAX_DOCUMENT_KEY_BYTES) && IdAt(d.rest, m)
    requires BytesAt(m.rest, u, 1, MAX_UPDATE_BYTES)
    ensures Rewrites(5, s, Parsed(Update(g.value, d.value, m.value, u.value), u.rest))
  {
  }

  lemma UpdateWrites(s: Bytes)
    requires ReadUpdate(s, false).Ok?
    ensures Rewrites(5, s, ReadUpdate(s, false).value)
  {
    var g := ReadGeneration(s).value;
    var d := ReadDocKey(g.rest, false).value;
    var m := ReadMessageId(d.rest).value;
    var u := ReadVarBytes(m.rest, 1, MAX_UPDATE_BYTES).value;
    GenerationRead(s, g);
    KeyRead(g.rest, d);
    IdRead(d.rest, m);
    BytesRead(m.rest, u, 1, MAX_UPDATE_BYTES);
    UpdateParts(s, g, d, m, u);
  }

  lemma AckParts(s: Bytes, g: Parsed<int>, d: Parsed<Utf8>, m: Parsed<Bytes>, q: Parsed<int>)
    requires VarAt(s, g, 0, MAX_SAFE_INTEGER) && TextAt(g.rest, d, MAX_DOCUMENT_KEY_BYTES) && IdAt(d.rest, m)
    requires VarAt(m.rest, q, 1, MAX_SAFE_INTEGER)
    ensures Rewrites(6, s, Parsed(Ack(g.value, d.value, m.value, q.value), q.rest))
  {
  }

  lemma AckWrites(s: Bytes)
    requires ReadAck(s, false).Ok?
    ensures Rewrites(6, s, ReadAck(s, false).value)
  {
    var g := ReadGeneration(s).value;
    var d := ReadDocKey(g.rest, false).value;
    var m := ReadMessageId(d.rest).value;
    var q := ReadVarUint(m.rest, 1, MAX_SAFE_INTEGER).value;
    GenerationRead(s, g);
    KeyRead(g.rest, d);
    IdRead(d.rest, m);
    VarRead(m.rest, q, 1, MAX_SAFE_INTEGER);
    AckParts(s, g, d, m, q);
  }

  lemma AwarenessParts(s: Bytes, g: Parsed<int>, d: Parsed<Utf8>, c: Parsed<int>, u: Parsed<Bytes>)
    requires VarAt(s, g, 0, MAX_SAFE_INTEGER) && TextAt(g.rest, d, MAX_DOCUMENT_KEY_BYTES) && VarAt(d.rest, c, 0, MAX_UINT32)
    requires BytesAt(c.rest, u, 1, MAX_AWARENESS_BYTES)
    ensures Rewrites(7, s, Parsed(Awareness(g.value, d.value, c.value, u.value), u.rest))
  {
  }

  lemma AwarenessWrites(s: Bytes)
    requires ReadAwareness(s, false).Ok?
    ensures Rewrites(7, s, ReadAwareness(s, false).value)
  {
    var g := ReadGeneration(s).value;
    var d := ReadDocKey(g.rest, false).value;
    var c := ReadVarUint(d.rest, 0, MAX_UINT32).value;
    var u := ReadVarBytes(c.rest, 1, MAX_AWARENESS_BYTES).value;
    GenerationRead(s, g);
    KeyRead(g.rest, d);
    VarRead(d.rest, c, 0, MAX_UINT32);
    BytesRead(c.rest, u, 1, MAX_AWARENESS_BYTES);
    AwarenessParts(s, g, d, c, u);
  }

  /** The key, the id and the payload of a control frame, after its flags. */
  ghost predicate ControlEndAt(s: Bytes, k: Parsed<Option<Utf8>>, i: Parsed<Option<Bytes>>, b: Parsed<Bytes>) {
    KeyAt(s, k) && OptionalIdAt(k.rest, i) && BytesAt(i.rest, b, 0, MAX_CONTROL_PAYLOAD_BYTES)
  }

  function FlagsFor(hasKey: bool, hasId: bool): int {
    (if hasKey then 1 else 0) + if hasId then 2 else 0
  }

  lemma ControlRestRead(generation: int, code: int, flags: int, s: Bytes, p: Parsed<Frame>)
    returns (k: Parsed<Option<Utf8>>, i: Parsed<Option<Bytes>>, b: Parsed<Bytes>)
    requires ReadControlRest(generation, code, flags, s, false) == Ok(p) && 0 <= flags <= 3
    ensures flags == FlagsFor(k.value.Some?, i.value.Some?) && ControlEndAt(s, k, i, b)
    ensures p == Parsed(Control(generation, code, k.value, i.value, b.value), b.rest)
  {
    k := ReadOptionalKey(s, flags % 2 == 1, false).value;
    i := ReadOptionalId(k.rest, flags / 2 == 1).value;
    b := ReadVarBytes(i.rest, 0, MAX_CONTROL_PAYLOAD_BYTES).value;
    OptionalKeyRead(s, k, flags % 2 == 1);
    OptionalIdRead(k.rest, i, flags / 2 == 1);
    BytesRead(i.rest, b, 0, MAX_CONTROL_PAYLOAD_BYTES);
  }

  ghost predicate ControlHeadAt(s: Bytes, g: Parsed<int>, c: Parsed<int>, f: Parsed<int>) {
    VarAt(s, g, 0, MAX_SAFE_INTEGER) && VarAt(g.rest, c, 0, 0xff) && ByteAt(c.rest, f)
  }

  lemma ControlHeadRead(s: Bytes, g: Parsed<int>, c: Parsed<int>, f: Parsed<int>)
    requires ReadGeneration(s) == Ok(g) && ReadVarUint(g.rest, 0, 0xff) == Ok(c) && ReadByte(c.rest) == Ok(f)
    ensures ControlHeadAt(s, g, c, f)
  {
    GenerationRead(s, g);
    VarRead(g.rest, c, 0, 0xff);
    ByteRead(c.rest, f);
  }

  lemma ControlParts(s: Bytes, g: Parsed<int>, c: Parsed<int>, f: Parsed<int>, k: Parsed<Option<Utf8>>, i: Parsed<Option<Bytes>>,
                     b: Parsed<Bytes>, p: Parsed<Frame>)
    requires ControlHeadAt(s, g, c, f) && 1 <= c.value <= 12 && ControlEndAt(f.rest, k, i, b)
    requires f.value == FlagsFor(k.value.Some?, i.value.Some?)
    requires p == Parsed(Control(g.value, c.value, k.value, i.value, b.value), b.rest)
    ensures Rewrites(8, s, p)
  {
  }

  lemma ControlWritesWith(s: Bytes, g: Parsed<int>, c: Parsed<int>, f: Parsed<int>, p: Parsed<Frame>)
    requires ControlHeadAt(s, g, c, f) && 1 <= c.value <= 12 && f.value <= 3
    requires ReadControlRest(g.value, c.value, f.value, f.rest, false) == Ok(p)
    ensures Rewrites(8, s, p)
  {
    var k, i, b := ControlRestRead(g.value, c.value, f.value, f.rest, p);
    ControlParts(s, g, c, f, k, i, b, p);
  }

  lemma ControlWrites(s: Bytes)
    requires ReadControl(s, false).Ok?
    ensures Rewrites(8, s, ReadControl(s, false).value)
  {
    var g := ReadGeneration(s).value;
    var c := ReadVarUint(g.rest, 0, 0xff).value;
    var f := ReadByte(c.rest).value;
    ControlHeadRead(s, g, c, f);
    ControlWritesWith(s, g, c, f, ReadControl(s, false).value);
  }

  lemma ChunkParts(s: Bytes, m: Parsed<Bytes>, t: Parsed<int>, i: Parsed<int>, c: Parsed<int>, n: Parsed<int>, b: Parsed<Bytes>)
    requires IdAt(s, m) && ByteAt(m.rest, t) && VarAt(t.rest, i, 0, MAX_CHUNK_COUNT - 1) && VarAt(i.rest, c, 2, MAX_CHUNK_COUNT)
    requires VarAt(c.rest, n, 1, MAX_REASSEMBLED_BYTES) && BytesAt(n.rest, b, 1, MAX_CHUNK_PAYLOAD_BYTES)
    ensures var f := Chunk(m.value, t.value, i.value, c.value, n.value, b.value);
      CheckChunk(f).Ok? ==> Rewrites(9, s, Parsed(f, b.rest))
  {
  }

  lemma ChunkWrites(s: Bytes)
    requires ReadChunk(s).Ok?
    ensures Rewrites(9, s, ReadChunk(s).value)
  {
    var m := ReadMessageId(s).value;
    var t := ReadByte(m.rest).value;
    var i := ReadVarUint(t.rest, 0, MAX_CHUNK_COUNT - 1).value;
    var c := ReadVarUint(i.rest, 2, MAX_CHUNK_COUNT).value;
    var n := ReadVarUint(c.rest, 1, MAX_REASSEMBLED_BYTES).value;
    var b := ReadVarBytes(n.rest, 1, MAX_CHUNK_PAYLOAD_BYTES).value;
    IdRead(s, m);
    ByteRead(m.rest, t);
    VarRead(t.rest, i, 0, MAX_CHUNK_COUNT - 1);
    VarRead(i.rest, c, 2, MAX_CHUNK_COUNT);
    VarRead(c.rest, n, 1, MAX_REASSEMBLED_BYTES);
    BytesRead(n.rest, b, 1, MAX_CHUNK_PAYLOAD_BYTES);
    ChunkParts(s, m, t, i, c, n, b);
  }

  lemma BodyWrites(frameType: int, s: Bytes, p: Parsed<Frame>)
    requires ReadBody(frameType, s, false) == Ok(p)
    ensures Rewrites(frameType, s, p)
  {
    if frameType == 1 {
      AuthWrites(s);
    } else if frameType == 2 {
      ReadyWrites(s);
    } else if frameType == 3 {
      SyncStep1Writes(s);
    } else if frameType == 4 {
      SyncStep2Writes(s);
    } else if frameType == 5 {
      UpdateWrites(s);
    } else if frameType == 6 {
      AckWrites(s);
    } else if frameType == 7 {
      AwarenessWrites(s);
    } else if frameType == 8 {
      ControlWrites(s);
    } else {
      ChunkWrites(s);
    }
  }

  // ----- whole frames

  lemma HeaderReads(f: Frame, body: Bytes, strip: bool)
    requires |Header(f) + body| <= MAX_ENCODED_FRAME_BYTES
    ensures Parse(Header(f) + body, strip)
         == var r := ReadBody(TypeOf(f), body, strip);
            if r.Err? then Err(r.error) else if r.value.rest != [] then Err(TrailingData) else Ok(r.value.value)
  {
  }

  lemma HeaderWas(bytes: Bytes, strip: bool) returns (frameType: Byte, body: Bytes)
    requires Parse(bytes, strip).Ok?
    ensures bytes == PROTOCOL_MAGIC + [PROTOCOL_VERSION, frameType] + body && |bytes| <= MAX_ENCODED_FRAME_BYTES
    ensures ReadBody(frameType, body, strip) == Ok(Parsed(Parse(bytes, strip).value, []))
  {
    var rest := bytes[4..];
    frameType, body := rest[1], rest[2..];
    assert rest[1..][1..] == body;
    assert bytes == bytes[..4] + rest && rest == [rest[0], rest[1]] + body;
  }

  /** A frame that passes its checks is read back from the wire exactly as it was. */
  lemma EncodeThenRead(f: Frame)
    requires Encode(f).Ok?
    ensures Wire(Encode(f).value) == Ok(f)
  {
    HeaderReads(f, PutBody(f, []), false);
    BodyReads(f, [], PutBody(f, []));
  }

  /** Every accepted byte sequence is the encoding of the frame on the wire. */
  lemma ReadThenEncode(bytes: Bytes)
    requires Wire(bytes).Ok?
    ensures Encode(Wire(bytes).value) == Ok(bytes)
  {
    var frameType, body := HeaderWas(bytes, false);
    BodyWrites(frameType, body, Parsed(Wire(bytes).value, []));
  }

  // ----- no checked frame is too large

  lemma VarSize(v: int, tail: Bytes)
    requires 0 <= v <= MAX_SAFE_INTEGER
    ensures |PutVar(v, tail)| <= 8 + |tail|
  {
    assert Pow128(8) == 0x100_0000_0000_0000 by {
      assert Pow128(4) == 0x1000_0000;
    }
    LebIsShort(v, 8);
  }

  lemma VarBytesSize(bytes: Bytes, tail: Bytes)
    requires |bytes| <= MAX_SAFE_INTEGER
    ensures |PutVarBytes(bytes, tail)| <= 8 + |bytes| + |tail|
  {
    VarSize(|bytes|, bytes + tail);
  }

  lemma DocumentSize(generation: int, docKey: Utf8, tail: Bytes)
    requires CheckDocument(generation, docKey).Ok?
    ensures |PutDocument(generation, docKey, tail)| <= 272 + |tail|
  {
    VarSize(generation, PutVarBytes(docKey, tail));
    VarBytesSize(docKey, tail);
  }

  lemma DocumentFrameSize(f: Frame)
    requires f.SyncStep1? || f.SyncStep2? || f.Update? || f.Ack? || f.Awareness?
    requires Check(f).Ok?
    ensures |PutBody(f, [])| <= 304 + MAX_UPDATE_BYTES
  {
    match f
    case SyncStep1(generation, docKey, stateVector) =>
      DocumentSize(generation, docKey, PutVarBytes(stateVector, []));
      VarBytesSize(stateVector, []);
    case SyncStep2(generation, docKey, update) =>
      DocumentSize(generation, docKey, PutVarBytes(update, []));
      VarBytesSize(update, []);
    case Update(generation, docKey, messageId, update) =>
      DocumentSize(generation, docKey, messageId + PutVarBytes(update, []));
      VarBytesSize(update, []);
    case Ack(generation, docKey, messageId, durableSequence) =>
      DocumentSize(generation, docKey, messageId + PutVar(durableSequence, []));
      VarSize(durableSequence, []);
    case Awareness(generation, docKey, awarenessClientId, update) =>
      DocumentSize(generation, docKey, PutVar(awarenessClientId, PutVarBytes(update, [])));
      VarSize(awarenessClientId, PutVarBytes(update, []));
      VarBytesSize(update, []);
    case _ =>
  }

  lemma OtherFrameSize(f: Frame)
    requires f.Auth? || f.Ready? || f.Control? || f.Chunk?
    requires Check(f).Ok?
    ensures |PutBody(f, [])| <= 304 + MAX_UPDATE_BYTES
  {
    match f
    case Auth(ticket, generation, low, high, capabilities) =>
      var s4 := PutVarBytes(ticket, []);
      var s3 := PutVar(capabilities, s4);
      var s2 := PutVar(high, s3);
      VarBytesSize(ticket, []);
      VarSize(capabilities, s4);
      VarSize(high, s3);
      VarSize(low, s2);
      VarSize(generation, PutVar(low, s2));
    case Ready(generation, version, capabilities, clientId, permissions) =>
      var s4 := PutVar(permissions, []);
      var s3 := PutVar(clientId, s4);
      var s2 := PutVar(capabilities, s3);
      VarSize(permissions, []);
      VarSize(clientId, s4);
      VarSize(capabilities, s3);
      VarSize(version, s2);
      VarSize(generation, PutVar(version, s2));
    case Control(generation, code, key, id, payload) =>
      var s3 := PutVarBytes(payload, []);
      var s2 := PutOptions(None, id, s3);
      var s1 := PutByte(ControlFlags(f), PutOptions(key, id, s3));
      VarBytesSize(payload, []);
      if key.Some? {
        VarBytesSize(key.value, s2);
      }
      VarSize(code, s1);
      VarSize(generation, PutVar(code, s1));
    case Chunk(messageId, innerType, index, count, total, payload) =>
      var s4 := PutVarBytes(payload, []);
      var s3 := PutVar(total, s4);
      var s2 := PutVar(count, s3);
      VarBytesSize(payload, []);
      VarSize(total, s4);
      VarSize(count, s3);
      VarSize(index, s2);
    case _ =>
  }

  /** A frame that passes its field checks always encodes: the size check never fires. */
  lemma CheckedFramesFit(f: Frame)
    ensures Encode(f).Ok? <==> Check(f).Ok?
    ensures Encode(f) != Err(FrameTooLarge)
  {
    if Check(f).Ok? {
      if f.Auth? || f.Ready? || f.Control? || f.Chunk? {
        OtherFrameSize(f);
      } else {
        DocumentFrameSize(f);
      }
    }
  }

  // ----- the byte order mark

  function Stripped(r: Reading<Frame>): Reading<Frame> {
    if r.Err? then r else Ok(Parsed(WithoutBom(r.value.value), r.value.rest))
  }

  function StrippedText(r: Reading<Utf8>): Reading<Utf8> {
    if r.Err? then r else Ok(Parsed(DropBom(r.value.value), r.value.rest))
  }

  lemma TextStrips(s: Bytes, max: int)
    ensures ReadText(s, max, true) == StrippedText(ReadText(s, max, false))
  {
    if ReadUtf8(s, max, false).Ok? {
      BomIsNoControl(ReadUtf8(s, max, false).value.value);
    }
  }

  lemma KeyStrips(s: Bytes)
    ensures ReadDocKey(s, true) == StrippedText(ReadDocKey(s, false))
  {
    TextStrips(s, MAX_DOCUMENT_KEY_BYTES);
  }

  lemma AuthStrips(s: Bytes)
    ensures ReadAuth(s, true) == Stripped(ReadAuth(s, false))
  {
    forall t: Bytes
      ensures ReadText(t, MAX_TICKET_BYTES, true) == StrippedText(ReadText(t, MAX_TICKET_BYTES, false))
    {
      TextStrips(t, MAX_TICKET_BYTES);
    }
  }

  lemma SyncStep1RestStrips(generation: int, docKey: Utf8, s: Bytes)
    ensures ReadSyncStep1Rest(generation, DropBom(docKey), s) == Stripped(ReadSyncStep1Rest(generation, docKey, s))
  {
  }

  lemma SyncStep1Strips(s: Bytes)
    ensures ReadSyncStep1(s, true) == Stripped(ReadSyncStep1(s, false))
  {
    var g := ReadGeneration(s);
    if g.Ok? {
      KeyStrips(g.value.rest);
      var d := ReadDocKey(g.value.rest, false);
      if d.Ok? {
        SyncStep1RestStrips(g.value.value, d.value.value, d.value.rest);
      }
    }
  }

  lemma SyncStep2RestStrips(generation: int, docKey: Utf8, s: Bytes)
    ensures ReadSyncStep2Rest(generation, DropBom(docKey), s) == Stripped(ReadSyncStep2Rest(generation, docKey, s))
  {
  }

  lemma SyncStep2Strips(s: Bytes)
    ensures ReadSyncStep2(s, true) == Stripped(ReadSyncStep2(s, false))
  {
    var g := ReadGeneration(s);
    if g.Ok? {
      KeyStrips(g.value.rest);
      var d := ReadDocKey(g.value.rest, false);
      if d.Ok? {
        SyncStep2RestStrips(g.value.value, d.value.value, d.value.rest);
      }
    }
  }

  lemma UpdateRestStrips(generation: int, docKey: Utf8, s: Bytes)
    ensures ReadUpdateRest(generation, DropBom(docKey), s) == Stripped(ReadUpdateRest(generation, docKey, s))
  {
  }

  lemma UpdateStrips(s: Bytes)
    ensures ReadUpdate(s, true) == Stripped(ReadUpdate(s, false))
  {
    var g := ReadGeneration(s);
    if g.Ok? {
      KeyStrips(g.value.rest);
      var d := ReadDocKey(g.value.rest, false);
      if d.Ok? {
        UpdateRestStrips(g.value.value, d.value.value, d.value.rest);
      }
    }
  }

  lemma AckRestStrips(generation: int, docKey: Utf8, s: Bytes)
    ensures ReadAckRest(generation, DropBom(docKey), s) == Stripped(ReadAckRest(generation, docKey, s))
  {
  }

  lemma AckStrips(s: Bytes)
    ensures ReadAck(s, true) == Stripped(ReadAck(s, false))
  {
    var g := ReadGeneration(s);
    if g.Ok? {
      KeyStrips(g.value.rest);
      var d := ReadDocKey(g.value.rest, false);
      if d.Ok? {
        AckRestStrips(g.value.value, d.value.value, d.value.rest);
      }
    }
  }

  lemma AwarenessRestStrips(generation: int, docKey: Utf8, s: Bytes)
    ensures ReadAwarenessRest(generation, DropBom(docKey), s) == Stripped(ReadAwarenessRest(generation, docKey, s))
  {
  }

  lemma AwarenessStrips(s: Bytes)
    ensures ReadAwareness(s, true) == Stripped(ReadAwareness(s, false))
  {
    var g := ReadGeneration(s);
    if g.Ok? {
      KeyStrips(g.value.rest);
      var d := ReadDocKey(g.value.rest, false);
      if d.Ok? {
        AwarenessRestStrips(g.value.value, d.value.value, d.value.rest);
      }
    }
  }

  function StrippedOption(r: Reading<Option<Utf8>>): Reading<Option<Utf8>> {
    if r.Err? || r.value.value.None? then r else Ok(Parsed(Some(DropBom(r.value.value.value)), r.value.rest))
  }

  lemma OptionalKeyStrips(s: Bytes, present: bool)
    ensures ReadOptionalKey(s, present, true) == StrippedOption(ReadOptionalKey(s, present, false))
  {
    KeyStrips(s);
  }

  lemma ControlEndStrips(generation: int, code: int, flags: int, key: Option<Utf8>, s: Bytes)
    ensures ReadControlEnd(generation, code, flags, if key.Some? then Some(DropBom(key.value)) else None, s)
         == Stripped(ReadControlEnd(generation, code, flags, key, s))
  {
  }

  lemma ControlRestStrips(generation: int, code: int, flags: int, s: Bytes)
    ensures ReadControlRest(generation, code, flags, s, true) == Stripped(ReadControlRest(generation, code, flags, s, false))
  {
    var key := ReadOptionalKey(s, flags % 2 == 1, false);
    OptionalKeyStrips(s, flags % 2 == 1);
    if key.Ok? {
      ControlEndStrips(generation, code, flags, key.value.value, key.value.rest);
    }
  }

  lemma ControlStrips(s: Bytes)
    ensures ReadControl(s, true) == Stripped(ReadControl(s, false))
  {
    if ReadGeneration(s).Ok? {
      var g := ReadGeneration(s).value;
      var c := ReadVarUint(g.rest, 0, 0xff);
      if c.Ok? && ReadByte(c.value.rest).Ok? {
        var flags := ReadByte(c.value.rest).value;
        ControlRestStrips(g.value, c.value.value, flags.value, flags.rest);
      }
    }
  }

  lemma BodyStrips(frameType: int, s: Bytes)
    ensures ReadBody(frameType, s, true) == Stripped(ReadBody(frameType, s, false))
  {
    if frameType == 1 {
      AuthStrips(s);
    } else if frameType == 3 {
      SyncStep1Strips(s);
    } else if frameType == 4 {
      SyncStep2Strips(s);
    } else if frameType == 5 {
      UpdateStrips(s);
    } else if frameType == 6 {
      AckStrips(s);
    } else if frameType == 7 {
      AwarenessStrips(s);
    } else if frameType == 8 {
      ControlStrips(s);
    }
  }

  lemma DecodeStripsWire(bytes: Bytes)
    ensures Decode(bytes) == if Wire(bytes).Err? then Wire(bytes) else Ok(WithoutBom(Wire(bytes).value))
  {
    forall frameType, s: Bytes
      ensures ReadBody(frameType, s, true) == Stripped(ReadBody(frameType, s, false))
    {
      BodyStrips(frameType, s);
    }
  }

  // ----- the main results

  /** decode(encode(f)) = f for every checked frame whose text field does not start with a byte order mark, and no other. */
  lemma DecodeUndoesEncode(f: Frame)
    requires Check(f).Ok?
    ensures Encode(f).Ok? && Decode(Encode(f).value) == Ok(WithoutBom(f))
    ensures Decode(Encode(f).value) == Ok(f) <==> !TextStartsWithBom(f)
  {
    CheckedFramesFit(f);
    EncodeThenRead(f);
    DecodeStripsWire(Encode(f).value);
    WithoutBomIsSame(f);
  }

  /** encode(decode(b)) = b for every accepted b without a byte order mark at the start of its text field, and no other. */
  lemma EncodeUndoesDecode(bytes: Bytes)
    requires Decode(bytes).Ok?
    ensures Wire(bytes).Ok? && Encode(Wire(bytes).value) == Ok(bytes)
    ensures Encode(Decode(bytes).value) == Ok(bytes) <==> !TextStartsWithBom(Wire(bytes).value)
  {
    DecodeStripsWire(bytes);
    ReadThenEncode(bytes);
    WithoutBomIsSame(Wire(bytes).value);
    if Encode(Decode(bytes).value) == Ok(bytes) {
      EncodeThenRead(Decode(bytes).value);
    }
  }

  /** A document key that is a byte order mark passes every check, and comes back empty. */
  lemma MarkIsLost()
    ensures var f := SyncStep1(0, BOM, [0]);
      Check(f).Ok? && Encode(f).Ok? && Decode(Encode(f).value) == Ok(SyncStep1(0, [], [0]))
  {
    var f := SyncStep1(0, BOM, [0]);
    assert CharLength(BOM) == 3 && BOM[3..] == [];
    assert BOM[1..] == [0xbb, 0xbf] && BOM[1..][1..] == [0xbf];
    assert !HasControls([0xbf]) && !HasControls(BOM);
    assert DropBom(BOM) == [];
    DecodeUndoesEncode(f);
  }
}
