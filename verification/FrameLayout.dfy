/**
 The bytes of the frames of BoardFrames, told apart from the functions that write and read them: a law for every
 frame, and the golden frames of the protocol.
 */
module FrameLayout {
  import opened BoardFrames
  import BoardRoundTrip
  import opened Leb128
  import opened Utf8Text
  import opened Wrappers

  // ----- numbers in groups of seven bits

  /** The number in the last seven bits of each byte, the first byte counting least. */
  function Base128(s: Bytes): nat {
    if s == [] then 0 else s[0] % 0x80 + 0x80 * Base128(s[1..])
  }

  /** The bytes of a number: its groups, with the top bit set in all but the last, which is zero only alone. */
  lemma {:induction false} LebIsBase128(v: nat)
    ensures Base128(Leb(v)) == v
    ensures forall i | 0 <= i < |Leb(v)| :: Leb(v)[i] >= 0x80 <==> i < |Leb(v)| - 1
    ensures Leb(v)[|Leb(v)| - 1] == 0 ==> v == 0
    decreases v
  {
    if v < 0x80 {
      assert Leb(v)[1..] == [];
    } else {
      LebIsBase128(v / 0x80);
      assert Leb(v)[1..] == Leb(v / 0x80);
    }
  }

  // ----- the layout of every frame

  lemma Regroup(head: Bytes, part: Bytes, tail: Bytes)
    ensures head + (part + tail) == head + part + tail
  {
  }

  function Sized(bytes: Bytes): Bytes {
    Leb(|bytes|) + bytes
  }

  lemma PutSized(head: Bytes, bytes: Bytes, tail: Bytes)
    ensures head + PutVarBytes(bytes, tail) == head + Sized(bytes) + tail
  {
    Regroup(Leb(|bytes|), bytes, tail);
    Regroup(head, Sized(bytes), tail);
  }

  lemma PutNumber(head: Bytes, v: int, tail: Bytes)
    requires v >= 0
    ensures head + PutVar(v, tail) == head + Leb(v) + tail
  {
    Regroup(head, Leb(v), tail);
  }

  lemma PutLast(head: Bytes, bytes: Bytes)
    ensures head + PutVarBytes(bytes, []) == head + Sized(bytes)
  {
    PutSized(head, bytes, []);
    assert head + Sized(bytes) + [] == head + Sized(bytes);
  }

  lemma AuthLayout(f: Frame)
    requires f.Auth? && Check(f).Ok?
    ensures Encode(f) == Ok([0x45, 0x44, 0x42, 0x32, 1, 1] + Leb(f.generation) + Leb(f.minSchemaVersion)
                            + Leb(f.maxSchemaVersion) + Leb(f.capabilities) + Sized(f.ticket))
  {
    BoardRoundTrip.CheckedFramesFit(f);
    var h0: Bytes := [0x45, 0x44, 0x42, 0x32, 1, 1];
    var t4 := PutVarBytes(f.ticket, []);
    var t3 := PutVar(f.capabilities, t4);
    var t2 := PutVar(f.maxSchemaVersion, t3);
    var t1 := PutVar(f.minSchemaVersion, t2);
    var h1 := h0 + Leb(f.generation);
    var h2 := h1 + Leb(f.minSchemaVersion);
    var h3 := h2 + Leb(f.maxSchemaVersion);
    PutNumber(h0, f.generation, t1);
    PutNumber(h1, f.minSchemaVersion, t2);
    PutNumber(h2, f.maxSchemaVersion, t3);
    PutNumber(h3, f.capabilities, t4);
    PutLast(h3 + Leb(f.capabilities), f.ticket);
    assert Header(f) == h0;
  }

  lemma ReadyLayout(f: Frame)
    requires f.Ready? && Check(f).Ok?
    ensures Encode(f) == Ok([0x45, 0x44, 0x42, 0x32, 1, 2] + Leb(f.generation) + Leb(f.schemaVersion)
                            + Leb(f.capabilities) + Leb(f.awarenessClientId) + Leb(f.permissions))
  {
    BoardRoundTrip.CheckedFramesFit(f);
    var h0: Bytes := [0x45, 0x44, 0x42, 0x32, 1, 2];
    var t4 := PutVar(f.permissions, []);
    var t3 := PutVar(f.awarenessClientId, t4);
    var t2 := PutVar(f.capabilities, t3);
    var t1 := PutVar(f.schemaVersion, t2);
    var h1 := h0 + Leb(f.generation);
    var h2 := h1 + Leb(f.schemaVersion);
    var h3 := h2 + Leb(f.capabilities);
    var h4 := h3 + Leb(f.awarenessClientId);
    PutNumber(h0, f.generation, t1);
    PutNumber(h1, f.schemaVersion, t2);
    PutNumber(h2, f.capabilities, t3);
    PutNumber(h3, f.awarenessClientId, t4);
    assert t4 == Leb(f.permissions);
    assert Header(f) == h0;
  }

  /** A frame of type t that starts with a generation and a document key, and ends with `rest`. */
  function DocumentBytes(t: Byte, generation: nat, docKey: Bytes, rest: Bytes): Bytes {
    [0x45, 0x44, 0x42, 0x32, 1, t] + Leb(generation) + Sized(docKey) + rest
  }

  lemma DocumentLayout(f: Frame, t: Byte, generation: nat, docKey: Utf8, tail: Bytes)
    requires Header(f) == [0x45, 0x44, 0x42, 0x32, 1, t]
    ensures Header(f) + PutDocument(generation, docKey, tail) == DocumentBytes(t, generation, docKey, tail)
  {
    PutNumber(Header(f), generation, PutVarBytes(docKey, tail));
    PutSized(Header(f) + Leb(generation), docKey, tail);
  }

  lemma PutAlone(bytes: Bytes)
    ensures PutVarBytes(bytes, []) == Sized(bytes)
  {
    assert bytes + [] == bytes;
  }

  lemma SyncLayout(f: Frame)
    requires (f.SyncStep1? || f.SyncStep2?) && Check(f).Ok?
    ensures f.SyncStep1? ==> Encode(f) == Ok(DocumentBytes(3, f.generation, f.docKey, Sized(f.stateVector)))
    ensures f.SyncStep2? ==> Encode(f) == Ok(DocumentBytes(4, f.generation, f.docKey, Sized(f.update)))
  {
    BoardRoundTrip.CheckedFramesFit(f);
    if f.SyncStep1? {
      PutAlone(f.stateVector);
      assert Header(f) == [0x45, 0x44, 0x42, 0x32, 1, 3];
      DocumentLayout(f, 3, f.generation, f.docKey, Sized(f.stateVector));
    } else {
      PutAlone(f.update);
      assert Header(f) == [0x45, 0x44, 0x42, 0x32, 1, 4];
      DocumentLayout(f, 4, f.generation, f.docKey, Sized(f.update));
    }
  }

  lemma UpdateLayout(f: Frame)
    requires f.Update? && Check(f).Ok?
    ensures Encode(f) == Ok(DocumentBytes(5, f.generation, f.docKey, f.messageId + Sized(f.update)))
  {
    BoardRoundTrip.CheckedFramesFit(f);
    PutAlone(f.update);
    assert Header(f) == [0x45, 0x44, 0x42, 0x32, 1, 5];
    DocumentLayout(f, 5, f.generation, f.docKey, f.messageId + Sized(f.update));
  }

  lemma AckLayout(f: Frame)
    requires f.Ack? && Check(f).Ok?
    ensures Encode(f) == Ok(DocumentBytes(6, f.generation, f.docKey, f.messageId + Leb(f.durableSequence)))
  {
    BoardRoundTrip.CheckedFramesFit(f);
    assert PutVar(f.durableSequence, []) == Leb(f.durableSequence);
    assert Header(f) == [0x45, 0x44, 0x42, 0x32, 1, 6];
    DocumentLayout(f, 6, f.generation, f.docKey, f.messageId + Leb(f.durableSequence));
  }

  lemma AwarenessLayout(f: Frame)
    requires f.Awareness? && Check(f).Ok?
    ensures Encode(f) == Ok(DocumentBytes(7, f.generation, f.docKey, Leb(f.awarenessClientId) + Sized(f.update)))
  {
    BoardRoundTrip.CheckedFramesFit(f);
    PutAlone(f.update);
    assert Header(f) == [0x45, 0x44, 0x42, 0x32, 1, 7];
    DocumentLayout(f, 7, f.generation, f.docKey, Leb(f.awarenessClientId) + Sized(f.update));
  }

  /** What the flags of a control frame announce: bit 0 a document key, bit 1 a message id. */
  function FlagsOf(hasKey: bool, hasId: bool): Byte {
    match (hasKey, hasId)
    case (false, false) => 0
    case (true, false) => 1
    case (false, true) => 2
    case (true, true) => 3
  }

  function KeyPart(key: Option<Utf8>): Bytes {
    if key.Some? then Sized(key.value) else []
  }

  function IdPart(id: Option<Bytes>): Bytes {
    if id.Some? then id.value else []
  }

  lemma OptionsLayout(head: Bytes, key: Option<Utf8>, id: Option<Bytes>, tail: Bytes)
    ensures head + PutOptions(key, id, tail) == head + KeyPart(key) + IdPart(id) + tail
  {
    var rest := if id.Some? then id.value + tail else tail;
    assert rest == IdPart(id) + tail;
    if key.Some? {
      PutSized(head, key.value, rest);
    }
    assert head + PutOptions(key, id, tail) == head + KeyPart(key) + rest;
    Regroup(head + KeyPart(key), IdPart(id), tail);
  }

  lemma ControlLayout(f: Frame)
    requires f.Control? && Check(f).Ok?
    ensures 1 <= f.code <= 12
    ensures Encode(f) == Ok([0x45, 0x44, 0x42, 0x32, 1, 8] + Leb(f.generation) + [f.code] + [FlagsOf(f.key.Some?, f.id.Some?)]
                            + KeyPart(f.key) + IdPart(f.id) + Sized(f.payload))
  {
    BoardRoundTrip.CheckedFramesFit(f);
    var h0: Bytes := [0x45, 0x44, 0x42, 0x32, 1, 8];
    var flags := FlagsOf(f.key.Some?, f.id.Some?);
    assert flags == ControlFlags(f);
    PutAlone(f.payload);
    var t3 := PutOptions(f.key, f.id, Sized(f.payload));
    var t2 := [flags] + t3;
    var h1 := h0 + Leb(f.generation);
    PutNumber(h0, f.generation, PutVar(f.code, t2));
    assert Leb(f.code) == [f.code];
    PutNumber(h1, f.code, t2);
    Regroup(h1 + [f.code], [flags], t3);
    OptionsLayout(h1 + [f.code] + [flags], f.key, f.id, Sized(f.payload));
    assert Header(f) == h0;
  }

  lemma ChunkLayout(f: Frame)
    requires f.Chunk? && Check(f).Ok?
    ensures 0 <= f.innerType < 0x100
    ensures Encode(f) == Ok([0x45, 0x44, 0x42, 0x32, 1, 9] + f.messageId + [f.innerType] + Leb(f.chunkIndex) + Leb(f.chunkCount)
                            + Leb(f.totalLength) + Sized(f.payload))
  {
    BoardRoundTrip.CheckedFramesFit(f);
    var h0: Bytes := [0x45, 0x44, 0x42, 0x32, 1, 9];
    var t4 := PutVarBytes(f.payload, []);
    var t3 := PutVar(f.totalLength, t4);
    var t2 := PutVar(f.chunkCount, t3);
    var t1 := PutVar(f.chunkIndex, t2);
    var h2 := h0 + f.messageId + [f.innerType];
    var h3 := h2 + Leb(f.chunkIndex);
    var h4 := h3 + Leb(f.chunkCount);
    Regroup(h0, f.messageId, [f.innerType] + t1);
    Regroup(h0 + f.messageId, [f.innerType], t1);
    PutNumber(h2, f.chunkIndex, t2);
    PutNumber(h3, f.chunkCount, t3);
    PutNumber(h4, f.totalLength, t4);
    PutLast(h4 + Leb(f.totalLength), f.payload);
    assert Header(f) == h0;
  }

  // ----- what every frame starts with

  predicate StartsWith(bytes: Bytes, t: Byte) {
    && |bytes| >= 6 && bytes[0] == 0x45 && bytes[1] == 0x44 && bytes[2] == 0x42 && bytes[3] == 0x32
    && bytes[4] == 1 && bytes[5] == t
  }

  /** The magic text, the version, and the type byte that tells the kind of frame. */
  lemma FrameStarts(f: Frame)
    requires Check(f).Ok?
    ensures Encode(f).Ok?
    ensures f.Auth? ==> StartsWith(Encode(f).value, 1)
    ensures f.Ready? ==> StartsWith(Encode(f).value, 2)
    ensures f.SyncStep1? ==> StartsWith(Encode(f).value, 3)
    ensures f.SyncStep2? ==> StartsWith(Encode(f).value, 4)
    ensures f.Update? ==> StartsWith(Encode(f).value, 5)
    ensures f.Ack? ==> StartsWith(Encode(f).value, 6)
    ensures f.Awareness? ==> StartsWith(Encode(f).value, 7)
    ensures f.Control? ==> StartsWith(Encode(f).value, 8)
    ensures f.Chunk? ==> StartsWith(Encode(f).value, 9)
  {
    BoardRoundTrip.CheckedFramesFit(f);
    assert StartsWith(Header(f), TypeOf(f));
    assert Encode(f).value == Header(f) + PutBody(f, []);
    assert forall i | 0 <= i < 6 :: Encode(f).value[i] == Header(f)[i];
  }

  /** Where the flags of a control frame are: after the header, the generation and the code. */
  function FlagsAt(generation: nat): nat {
    7 + |Leb(generation)|
  }

  lemma ControlFlagBits(f: Frame)
    requires f.Control? && Check(f).Ok?
    ensures Encode(f).Ok? && FlagsAt(f.generation) < |Encode(f).value| && Encode(f).value[FlagsAt(f.generation)] < 4
    ensures Encode(f).value[FlagsAt(f.generation)] % 2 == 1 <==> f.key.Some?
    ensures Encode(f).value[FlagsAt(f.generation)] / 2 == 1 <==> f.id.Some?
  {
    ControlLayout(f);
    var head := [0x45, 0x44, 0x42, 0x32, 1, 8] + Leb(f.generation) + [f.code];
    var flags := [FlagsOf(f.key.Some?, f.id.Some?)];
    assert |head| == FlagsAt(f.generation);
    assert (head + flags)[|head|] == flags[0];
  }

  /** Whatever is accepted starts so too, and its type byte and flags tell what the decoded frame is. */
  lemma AcceptedBytes(bytes: Bytes, f: Frame)
    requires Decode(bytes) == Ok(f)
    ensures |bytes| >= 6 && StartsWith(bytes, bytes[5]) && 1 <= bytes[5] <= 9
    ensures (bytes[5] == 1 <==> f.Auth?) && (bytes[5] == 2 <==> f.Ready?) && (bytes[5] == 3 <==> f.SyncStep1?)
    ensures (bytes[5] == 4 <==> f.SyncStep2?) && (bytes[5] == 5 <==> f.Update?) && (bytes[5] == 6 <==> f.Ack?)
    ensures (bytes[5] == 7 <==> f.Awareness?) && (bytes[5] == 8 <==> f.Control?) && (bytes[5] == 9 <==> f.Chunk?)
    ensures f.Control? ==> f.generation >= 0 && FlagsAt(f.generation) < |bytes|
    ensures f.Control? ==> (bytes[FlagsAt(f.generation)] % 2 == 1 <==> f.key.Some?)
    ensures f.Control? ==> (bytes[FlagsAt(f.generation)] / 2 == 1 <==> f.id.Some?)
  {
    BoardRoundTrip.DecodeStripsWire(bytes);
    BoardRoundTrip.ReadThenEncode(bytes);
    var wire := Wire(bytes).value;
    BoardRoundTrip.CheckedFramesFit(wire);
    FrameStarts(wire);
    SameKind(wire);
    if wire.Control? {
      ControlFlagBits(wire);
    }
  }

  lemma SameKind(f: Frame)
    ensures var g := WithoutBom(f);
      && (f.Auth? <==> g.Auth?) && (f.Ready? <==> g.Ready?) && (f.SyncStep1? <==> g.SyncStep1?)
      && (f.SyncStep2? <==> g.SyncStep2?) && (f.Update? <==> g.Update?) && (f.Ack? <==> g.Ack?)
      && (f.Awareness? <==> g.Awareness?) && (f.Control? <==> g.Control?) && (f.Chunk? <==> g.Chunk?)
      && (f.Control? ==> f.generation == g.generation && (f.key.Some? <==> g.key.Some?) && (f.id.Some? <==> g.id.Some?))
  {
  }

  // ----- which frames can be sent

  predicate Counts(n: int) {
    0 <= n <= 9_007_199_254_740_991
  }

  predicate Plain(text: Bytes, most: nat) {
    1 <= |text| <= most && forall i | 0 <= i < |text| :: text[i] >= 0x20 && text[i] != 0x7f
  }

  lemma {:induction false} ControlsAreSomewhere(s: Bytes)
    ensures HasControls(s) <==> exists i | 0 <= i < |s| :: s[i] < 0x20 || s[i] == 0x7f
    decreases |s|
  {
    if s != [] {
      ControlsAreSomewhere(s[1..]);
      if i :| 0 <= i < |s| && (s[i] < 0x20 || s[i] == 0x7f) {
        assert i > 0 ==> s[1..][i - 1] == s[i];
      }
      if i :| 0 <= i < |s[1..]| && (s[1..][i] < 0x20 || s[1..][i] == 0x7f) {
        assert s[i + 1] == s[1..][i];
      }
    }
  }

  lemma PlainIff(text: Utf8, most: nat)
    ensures CheckText(text, most).Ok? <==> Plain(text, most)
  {
    ControlsAreSomewhere(text);
  }

  lemma FirstFrames(f: Frame)
    ensures f.Auth? ==>
      (Check(f).Ok? <==> Counts(f.generation) && 1 <= f.minSchemaVersion <= f.maxSchemaVersion <= 65_535
                         && 0 <= f.capabilities <= 4_294_967_295 && Plain(f.ticket, 4_096))
    ensures f.Ready? ==>
      (Check(f).Ok? <==> Counts(f.generation) && 1 <= f.schemaVersion <= 65_535 && 0 <= f.capabilities <= 4_294_967_295
                         && 0 <= f.awarenessClientId <= 4_294_967_295 && 0 <= f.permissions <= 255 && f.permissions % 2 == 1)
  {
    if f.Auth? {
      PlainIff(f.ticket, 4_096);
    }
  }

  lemma DocumentFrames(f: Frame)
    ensures f.SyncStep1? ==>
      (Check(f).Ok? <==> Counts(f.generation) && Plain(f.docKey, 256) && 1 <= |f.stateVector| <= 2_097_152)
    ensures f.SyncStep2? ==> (Check(f).Ok? <==> Counts(f.generation) && Plain(f.docKey, 256) && 1 <= |f.update| <= 16_777_216)
    ensures f.Update? ==>
      (Check(f).Ok? <==> Counts(f.generation) && Plain(f.docKey, 256) && |f.messageId| == 16 && 1 <= |f.update| <= 16_777_216)
    ensures f.Ack? ==>
      (Check(f).Ok? <==> Counts(f.generation) && Plain(f.docKey, 256) && |f.messageId| == 16
                         && Counts(f.durableSequence) && f.durableSequence > 0)
    ensures f.Awareness? ==>
      (Check(f).Ok? <==> Counts(f.generation) && Plain(f.docKey, 256) && 0 <= f.awarenessClientId <= 4_294_967_295
                         && 1 <= |f.update| <= 262_144)
  {
    if f.SyncStep1? || f.SyncStep2? || f.Update? || f.Ack? || f.Awareness? {
      PlainIff(f.docKey, 256);
    }
  }

  lemma LastFrames(f: Frame)
    ensures f.Control? ==>
      (Check(f).Ok? <==> Counts(f.generation) && 1 <= f.code <= 12 && |f.payload| <= 65_536
                         && (f.key.Some? ==> Plain(f.key.value, 256)) && (f.id.Some? ==> |f.id.value| == 16))
    ensures f.Chunk? ==>
      (Check(f).Ok? <==> |f.messageId| == 16 && (f.innerType == 4 || f.innerType == 5) && 2 <= f.chunkCount <= 128
                         && 0 <= f.chunkIndex < f.chunkCount && 1 <= |f.payload| <= 262_144 && |f.payload| < f.totalLength
                         && f.chunkCount <= f.totalLength <= 16_781_312 && f.totalLength <= 262_144 * f.chunkCount)
  {
    if f.Control? && f.key.Some? {
      PlainIff(f.key.value, 256);
    }
  }

  // ----- the golden frames

  /** Both directions of one golden frame. */
  predicate IsGolden(f: Frame, bytes: Bytes) {
    Encode(f) == Ok(bytes) && Decode(bytes) == Ok(f)
  }

  predicate Printable(s: Bytes) {
    forall i | 0 <= i < |s| :: 0x20 <= s[i] < 0x7f
  }

  lemma {:induction false} PrintableIsText(s: Bytes)
    requires Printable(s)
    ensures ValidUtf8(s) && !HasControls(s) && !StartsWithBom(s)
    decreases |s|
  {
    if s != [] {
      PrintableIsText(s[1..]);
      assert |s| >= 3 ==> s[..3][0] == s[0];
    }
  }

  function Text(s: Bytes): (t: Utf8)
    requires Printable(s)
    ensures t == s && !HasControls(t) && !StartsWithBom(t)
  {
    PrintableIsText(s);
    s
  }

  lemma EncodedIsGolden(f: Frame, bytes: Bytes)
    requires Check(f).Ok? && !TextStartsWithBom(f) && Encode(f) == Ok(bytes)
    ensures IsGolden(f, bytes)
  {
    BoardRoundTrip.DecodeUndoesEncode(f);
  }

  lemma SmallSized(bytes: Bytes, n: Byte)
    requires |bytes| == n < 0x80
    ensures Sized(bytes) == [n] + bytes
  {
  }

  lemma Lebs()
    ensures Leb(300) == [0xac, 0x02] && Leb(1193046) == [0xd6, 0xe8, 0x48]
  {
    assert Leb(300) == [0xac] + Leb(2);
    assert Leb(1193046) == [0xd6] + Leb(9320) && Leb(9320) == [0xe8] + Leb(72);
  }

  // The fields that vary in length come as variables; the golden frames below fill them in.

  lemma AuthOf(f: Frame, ticket: Utf8)
    requires |ticket| == 10 && !HasControls(ticket) && !StartsWithBom(ticket) && f == Auth(ticket, 7, 1, 3, 31)
    ensures IsGolden(f, [0x45, 0x44, 0x42, 0x32, 1, 1] + [0x07] + [0x01] + [0x03] + [0x1f] + ([0x0a] + ticket))
  {
    AuthLayout(f);
    SmallSized(ticket, 10);
    EncodedIsGolden(f, Encode(f).value);
  }

  lemma ReadyOf(f: Frame)
    requires f == Ready(7, 2, 3, 1193046, 3)
    ensures IsGolden(f, [0x45, 0x44, 0x42, 0x32, 1, 2] + [0x07] + [0x02] + [0x03] + [0xd6, 0xe8, 0x48] + [0x03])
  {
    ReadyLayout(f);
    Lebs();
    EncodedIsGolden(f, Encode(f).value);
  }

  predicate IsKey(key: Utf8) {
    |key| == 8 && !HasControls(key) && !StartsWithBom(key)
  }

  lemma DocumentOf(t: Byte, key: Utf8, rest: Bytes)
    requires IsKey(key)
    ensures CheckDocument(7, key).Ok?
    ensures DocumentBytes(t, 7, key, rest) == [0x45, 0x44, 0x42, 0x32, 1, t] + [0x07] + ([0x08] + key) + rest
  {
    SmallSized(key, 8);
  }

  lemma SyncStep1Of(f: Frame, key: Utf8, vector: Bytes)
    requires IsKey(key) && |vector| == 5 && f == SyncStep1(7, key, vector)
    ensures IsGolden(f, [0x45, 0x44, 0x42, 0x32, 1, 3] + [0x07] + ([0x08] + key) + ([0x05] + vector))
  {
    DocumentOf(3, key, Sized(vector));
    SyncLayout(f);
    SmallSized(vector, 5);
    EncodedIsGolden(f, Encode(f).value);
  }

  lemma SyncStep2Of(f: Frame, key: Utf8, update: Bytes)
    requires IsKey(key) && |update| == 4 && f == SyncStep2(7, key, update)
    ensures IsGolden(f, [0x45, 0x44, 0x42, 0x32, 1, 4] + [0x07] + ([0x08] + key) + ([0x04] + update))
  {
    DocumentOf(4, key, Sized(update));
    SyncLayout(f);
    SmallSized(update, 4);
    EncodedIsGolden(f, Encode(f).value);
  }

  lemma UpdateOf(f: Frame, key: Utf8, id: Bytes, update: Bytes)
    requires IsKey(key) && |id| == 16 && |update| == 3 && f == Update(7, key, id, update)
    ensures IsGolden(f, [0x45, 0x44, 0x42, 0x32, 1, 5] + [0x07] + ([0x08] + key) + (id + ([0x03] + update)))
  {
    DocumentOf(5, key, id + Sized(update));
    UpdateLayout(f);
    SmallSized(update, 3);
    EncodedIsGolden(f, Encode(f).value);
  }

  lemma AckOf(f: Frame, key: Utf8, id: Bytes)
    requires IsKey(key) && |id| == 16 && f == Ack(7, key, id, 300)
    ensures IsGolden(f, [0x45, 0x44, 0x42, 0x32, 1, 6] + [0x07] + ([0x08] + key) + (id + [0xac, 0x02]))
  {
    DocumentOf(6, key, id + Leb(300));
    AckLayout(f);
    Lebs();
    EncodedIsGolden(f, Encode(f).value);
  }

  lemma AwarenessOf(f: Frame, key: Utf8, update: Bytes)
    requires IsKey(key) && |update| == 3 && f == Awareness(7, key, 42, update)
    ensures IsGolden(f, [0x45, 0x44, 0x42, 0x32, 1, 7] + [0x07] + ([0x08] + key) + ([0x2a] + ([0x03] + update)))
  {
    DocumentOf(7, key, Leb(42) + Sized(update));
    AwarenessLayout(f);
    SmallSized(update, 3);
    EncodedIsGolden(f, Encode(f).value);
  }

  lemma ControlWithIdOf(f: Frame, id: Bytes, payload: Bytes)
    requires |id| == 16 && |payload| == 23 && f == Control(7, 11, None, Some(id), payload)
    ensures IsGolden(f, [0x45, 0x44, 0x42, 0x32, 1, 8] + [0x07] + [0x0b] + [0x02] + [] + id + ([0x17] + payload))
  {
    ControlLayout(f);
    SmallSized(payload, 23);
    EncodedIsGolden(f, Encode(f).value);
  }

  lemma ControlWithBothOf(f: Frame, key: Utf8, id: Bytes, payload: Bytes)
    requires IsKey(key) && |id| == 16 && |payload| == 10 && f == Control(7, 4, Some(key), Some(id), payload)
    ensures IsGolden(f, [0x45, 0x44, 0x42, 0x32, 1, 8] + [0x07] + [0x04] + [0x03] + ([0x08] + key) + id + ([0x0a] + payload))
  {
    ControlLayout(f);
    SmallSized(key, 8);
    SmallSized(payload, 10);
    EncodedIsGolden(f, Encode(f).value);
  }

  lemma ControlWithKeyOf(f: Frame, key: Utf8, payload: Bytes)
    requires IsKey(key) && |payload| == 1 && f == Control(7, 4, Some(key), None, payload)
    ensures IsGolden(f, [0x45, 0x44, 0x42, 0x32, 1, 8] + [0x07] + [0x04] + [0x01] + ([0x08] + key) + [] + ([0x01] + payload))
  {
    ControlLayout(f);
    SmallSized(key, 8);
    SmallSized(payload, 1);
    EncodedIsGolden(f, Encode(f).value);
  }

  lemma ControlAloneOf(f: Frame, payload: Bytes)
    requires |payload| == 1 && f == Control(7, 4, None, None, payload)
    ensures IsGolden(f, [0x45, 0x44, 0x42, 0x32, 1, 8] + [0x07] + [0x04] + [0x00] + [] + [] + ([0x01] + payload))
  {
    ControlLayout(f);
    SmallSized(payload, 1);
    EncodedIsGolden(f, Encode(f).value);
  }

  lemma ChunkOf(f: Frame, id: Bytes, payload: Bytes)
    requires |id| == 16 && |payload| == 3 && f == Chunk(id, 5, 1, 2, 10, payload)
    ensures IsGolden(f, [0x45, 0x44, 0x42, 0x32, 1, 9] + id + [0x05] + [0x01] + [0x02] + [0x0a] + ([0x03] + payload))
  {
    ChunkLayout(f);
    SmallSized(payload, 3);
    EncodedIsGolden(f, Encode(f).value);
  }

  // The texts "ticket.ABC", "manifest" and "page:abc", and the other fields of src/board/protocol/fixtures/v1.json.

  const TICKET: Bytes := [0x74, 0x69, 0x63, 0x6b, 0x65, 0x74, 0x2e, 0x41, 0x42, 0x43]

  const MANIFEST: Bytes := [0x6d, 0x61, 0x6e, 0x69, 0x66, 0x65, 0x73, 0x74]

  const PAGE: Bytes := [0x70, 0x61, 0x67, 0x65, 0x3a, 0x61, 0x62, 0x63]

  const MESSAGE_ID: Bytes :=
    [0x00, 0x11, 0x22, 0x33, 0x44, 0x55, 0x66, 0x77, 0x88, 0x99, 0xaa, 0xbb, 0xcc, 0xdd, 0xee, 0xff]

  const PROFILE: Bytes :=
    [0x01, 0x00, 0x0d, 0x54, 0x75, 0x74, 0x6f, 0x72, 0x20, 0x50, 0x72, 0x6f, 0x66, 0x69, 0x6c, 0x65,
     0x23, 0x61, 0x31, 0x62, 0x32, 0x63, 0x33]

  const REASON: Bytes := [0x70, 0x65, 0x72, 0x6d, 0x69, 0x73, 0x73, 0x69, 0x6f, 0x6e]

  lemma Texts()
    ensures |TICKET| == 10 && Printable(TICKET) && |MANIFEST| == 8 && Printable(MANIFEST) && |PAGE| == 8 && Printable(PAGE)
  {
  }

  lemma GoldenAuth()
    ensures Printable(TICKET)
    ensures IsGolden(Auth(Text(TICKET), 7, 1, 3, 31),
                     [0x45, 0x44, 0x42, 0x32, 1, 1] + [0x07] + [0x01] + [0x03] + [0x1f] + ([0x0a] + TICKET))
  {
    Texts();
    AuthOf(Auth(Text(TICKET), 7, 1, 3, 31), Text(TICKET));
  }

  lemma GoldenReady()
    ensures IsGolden(Ready(7, 2, 3, 1193046, 3),
                     [0x45, 0x44, 0x42, 0x32, 1, 2] + [0x07] + [0x02] + [0x03] + [0xd6, 0xe8, 0x48] + [0x03])
  {
    ReadyOf(Ready(7, 2, 3, 1193046, 3));
  }

  lemma GoldenSyncStep1()
    ensures Printable(MANIFEST)
    ensures IsGolden(SyncStep1(7, Text(MANIFEST), [0x00, 0x01, 0x7f, 0x80, 0xff]),
                     [0x45, 0x44, 0x42, 0x32, 1, 3] + [0x07] + ([0x08] + MANIFEST) + ([0x05] + [0x00, 0x01, 0x7f, 0x80, 0xff]))
  {
    Texts();
    var vector := [0x00, 0x01, 0x7f, 0x80, 0xff];
    SyncStep1Of(SyncStep1(7, Text(MANIFEST), vector), Text(MANIFEST), vector);
  }

  lemma GoldenSyncStep2()
    ensures Printable(PAGE)
    ensures IsGolden(SyncStep2(7, Text(PAGE), [1, 2, 3, 4]),
                     [0x45, 0x44, 0x42, 0x32, 1, 4] + [0x07] + ([0x08] + PAGE) + ([0x04] + [1, 2, 3, 4]))
  {
    Texts();
    SyncStep2Of(SyncStep2(7, Text(PAGE), [1, 2, 3, 4]), Text(PAGE), [1, 2, 3, 4]);
  }

  lemma GoldenUpdate()
    ensures Printable(PAGE)
    ensures IsGolden(Update(7, Text(PAGE), MESSAGE_ID, [9, 8, 7]),
                     [0x45, 0x44, 0x42, 0x32, 1, 5] + [0x07] + ([0x08] + PAGE) + (MESSAGE_ID + ([0x03] + [9, 8, 7])))
  {
    Texts();
    UpdateOf(Update(7, Text(PAGE), MESSAGE_ID, [9, 8, 7]), Text(PAGE), MESSAGE_ID, [9, 8, 7]);
  }

  lemma GoldenAck()
    ensures Printable(PAGE)
    ensures IsGolden(Ack(7, Text(PAGE), MESSAGE_ID, 300),
                     [0x45, 0x44, 0x42, 0x32, 1, 6] + [0x07] + ([0x08] + PAGE) + (MESSAGE_ID + [0xac, 0x02]))
  {
    Texts();
    AckOf(Ack(7, Text(PAGE), MESSAGE_ID, 300), Text(PAGE), MESSAGE_ID);
  }

  lemma GoldenAwareness()
    ensures Printable(PAGE)
    ensures IsGolden(Awareness(7, Text(PAGE), 42, [1, 0, 42]),
                     [0x45, 0x44, 0x42, 0x32, 1, 7] + [0x07] + ([0x08] + PAGE) + ([0x2a] + ([0x03] + [1, 0, 42])))
  {
    Texts();
    AwarenessOf(Awareness(7, Text(PAGE), 42, [1, 0, 42]), Text(PAGE), [1, 0, 42]);
  }

  /** PROFILE_UPDATE: a message id alone, flags 2. */
  lemma GoldenProfileUpdate()
    ensures IsGolden(Control(7, 11, None, Some(MESSAGE_ID), PROFILE),
                     [0x45, 0x44, 0x42, 0x32, 1, 8] + [0x07] + [0x0b] + [0x02] + [] + MESSAGE_ID + ([0x17] + PROFILE))
  {
    ControlWithIdOf(Control(7, 11, None, Some(MESSAGE_ID), PROFILE), MESSAGE_ID, PROFILE);
  }

  /** UPDATE_REJECTED: a document key and a message id, flags 3. */
  lemma GoldenControl()
    ensures Printable(PAGE)
    ensures IsGolden(Control(7, 4, Some(Text(PAGE)), Some(MESSAGE_ID), REASON),
                     [0x45, 0x44, 0x42, 0x32, 1, 8] + [0x07] + [0x04] + [0x03] + ([0x08] + PAGE) + MESSAGE_ID + ([0x0a] + REASON))
  {
    Texts();
    ControlWithBothOf(Control(7, 4, Some(Text(PAGE)), Some(MESSAGE_ID), REASON), Text(PAGE), MESSAGE_ID, REASON);
  }

  /** Not among the fixtures: a document key alone, flags 1, and neither, flags 0. */
  lemma OtherControls()
    ensures Printable(PAGE)
    ensures IsGolden(Control(7, 4, Some(Text(PAGE)), None, [9]),
                     [0x45, 0x44, 0x42, 0x32, 1, 8] + [0x07] + [0x04] + [0x01] + ([0x08] + PAGE) + [] + ([0x01] + [9]))
    ensures IsGolden(Control(7, 4, None, None, [9]),
                     [0x45, 0x44, 0x42, 0x32, 1, 8] + [0x07] + [0x04] + [0x00] + [] + [] + ([0x01] + [9]))
  {
    Texts();
    ControlWithKeyOf(Control(7, 4, Some(Text(PAGE)), None, [9]), Text(PAGE), [9]);
    ControlAloneOf(Control(7, 4, None, None, [9]), [9]);
  }

  lemma GoldenChunk()
    ensures IsGolden(Chunk(MESSAGE_ID, 5, 1, 2, 10, [0xaa, 0xbb, 0xcc]),
                     [0x45, 0x44, 0x42, 0x32, 1, 9] + MESSAGE_ID + [0x05] + [0x01] + [0x02] + [0x0a] + ([0x03] + [0xaa, 0xbb, 0xcc]))
  {
    ChunkOf(Chunk(MESSAGE_ID, 5, 1, 2, 10, [0xaa, 0xbb, 0xcc]), MESSAGE_ID, [0xaa, 0xbb, 0xcc]);
  }
}
