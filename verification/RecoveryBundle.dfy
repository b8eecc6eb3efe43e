/**
 Recovery bundles: a board document and any number of asset bodies in one file, behind a
 header that describes them. The JSON text of the header is a parameter.
 */
module RecoveryBundle {
  import opened CodeUnits
  import opened Containers
  import opened Leb128
  import opened Wrappers

  /** "EDURI_BOARD_RECOVERY_V1\n" */
  const MAGIC: Bytes :=
    [69, 68, 85, 82, 73, 95, 66, 79, 65, 82, 68, 95, 82, 69, 67, 79, 86, 69, 82, 89, 95, 86, 49, 10]

  lemma MagicIsText(text: string)
    requires text == "EDURI_BOARD_RECOVERY_V1\n"
    ensures |MAGIC| == |text| && forall i | 0 <= i < |text| :: MAGIC[i] == text[i] as int
  {
  }

  /** The state of a document as one update; that of a document without content still takes two bytes. */
  type Update = s: Bytes | s != [] witness [0, 0]

  datatype Identity = Identity(boardId: Text, lessonId: Text, generation: int, schemaVersion: int, documentKey: Text, pageId: Text)

  datatype Descriptor = Descriptor(assetId: Text, sha256: Text, mimeType: Text, fileName: Option<Text>, byteLength: int)

  datatype Header = Header(identity: Identity, reason: Text, pendingUpdateCount: int, createdAt: Text, documentBytes: int, assets: seq<Descriptor>)

  datatype Asset = Asset(assetId: Text, sha256: Text, mimeType: Text, fileName: Option<Text>, bytes: Bytes)

  datatype Bundle = Bundle(identity: Identity, reason: Text, pendingUpdateCount: int, createdAt: Text, document: Update, assets: seq<Asset>)

  /** How headers are written and read; reading fails on a text that is not JSON of the right shape, format and version. */
  datatype HeaderText = HeaderText(stringify: Header -> Bytes, parse: Bytes -> Option<Header>, isDate: Text -> bool)

  /** Reading undoes writing, for headers whose numbers JSON carries exactly, and no JSON object has a text shorter than two bytes. */
  ghost predicate Lawful(json: HeaderText) {
    forall h | ValidHeader(json, h) :: WrittenBack(json, h)
  }

  predicate WrittenBack(json: HeaderText, h: Header) {
    json.parse(json.stringify(h)) == Some(h) && |json.stringify(h)| >= 2
  }

  // ----- field checks

  predicate NonEmpty(s: Text, maximum: nat) {
    1 <= |s| <= maximum
  }

  predicate SafeCount(n: int, minimum: int) {
    minimum <= n <= MAX_SAFE_INTEGER
  }

  predicate ValidIdentity(i: Identity) {
    && NonEmpty(i.boardId, 512) && NonEmpty(i.lessonId, 512) && SafeCount(i.generation, 1) && SafeCount(i.schemaVersion, 1)
    && NonEmpty(i.documentKey, 512) && NonEmpty(i.pageId, 512)
  }

  predicate Sha256Pattern(s: Text) {
    |s| == 64 && forall i | 0 <= i < 64 :: 0x30 <= s[i] <= 0x39 || 0x61 <= s[i] <= 0x66
  }

  predicate ValidDescriptor(d: Descriptor) {
    && NonEmpty(d.assetId, 128) && Sha256Pattern(d.sha256) && NonEmpty(d.mimeType, 256)
    && (d.fileName.Some? ==> NonEmpty(d.fileName.value, 512)) && SafeCount(d.byteLength, 0)
  }

  predicate ValidFields(json: HeaderText, h: Header) {
    && ValidIdentity(h.identity) && NonEmpty(h.reason, 256) && SafeCount(h.pendingUpdateCount, 0)
    && NonEmpty(h.createdAt, 128) && json.isDate(h.createdAt)
    && AllValid(h.assets)
  }

  predicate AllValid(descriptors: seq<Descriptor>) {
    forall i | 0 <= i < |descriptors| :: ValidDescriptor(descriptors[i])
  }

  predicate ValidHeader(json: HeaderText, h: Header) {
    ValidFields(json, h) && SafeCount(h.documentBytes, 1)
  }

  // ----- creating

  function DescriptorOf(a: Asset): Descriptor {
    Descriptor(a.assetId, a.sha256, a.mimeType, a.fileName, |a.bytes|)
  }

  function Descriptors(assets: seq<Asset>): seq<Descriptor> {
    seq(|assets|, i requires 0 <= i < |assets| => DescriptorOf(assets[i]))
  }

  function Bodies(assets: seq<Asset>): seq<Bytes> {
    seq(|assets|, i requires 0 <= i < |assets| => assets[i].bytes)
  }

  function HeaderOf(b: Bundle): Header {
    Header(b.identity, b.reason, b.pendingUpdateCount, b.createdAt, |b.document|, Descriptors(b.assets))
  }

  function Payload(b: Bundle): Bytes {
    b.document + Joined(Bodies(b.assets))
  }

  function FileOf(b: Bundle, header: Bytes): Bytes {
    Wrap(MAGIC, header, Payload(b))
  }

  /** Every field passes its check and the file has a size that can be written down. */
  predicate CanBeCreated(json: HeaderText, b: Bundle) {
    && ValidFields(json, HeaderOf(b))
    && |json.stringify(HeaderOf(b))| <= MAX_HEADER_BYTES && |FileOf(b, json.stringify(HeaderOf(b)))| <= MAX_SAFE_INTEGER
  }

  method ValidateAssets(assets: seq<Descriptor>) returns (valid: bool)
    ensures valid <==> AllValid(assets)
  {
    for index := 0 to |assets|
      invariant forall i | 0 <= i < index :: ValidDescriptor(assets[i])
    {
      if !ValidDescriptor(assets[index]) {
        return false;
      }
    }
    return true;
  }

  /** The parts before the asset bodies: the magic text, the header's length, the header and the document. */
  method CreateBoardRecoveryBundleParts(json: HeaderText, b: Bundle) returns (parts: Option<seq<Bytes>>)
    ensures parts.Some? <==> ValidFields(json, HeaderOf(b)) && |json.stringify(HeaderOf(b))| <= MAX_HEADER_BYTES
    ensures parts.Some? ==>
      parts.value == [MAGIC, PutUint32(|json.stringify(HeaderOf(b))|), json.stringify(HeaderOf(b)), b.document]
  {
    var header := HeaderOf(b);
    if !ValidIdentity(b.identity) || !NonEmpty(b.createdAt, 128) || !json.isDate(b.createdAt) || !NonEmpty(b.reason, 256)
       || !SafeCount(b.pendingUpdateCount, 0)
    {
      return None;
    }
    var valid := ValidateAssets(header.assets);
    if !valid {
      return None;
    }
    var headerBytes := json.stringify(header);
    if |headerBytes| > MAX_HEADER_BYTES {
      return None;
    }
    return Some([MAGIC, PutUint32(|headerBytes|), headerBytes, b.document]);
  }

  lemma JoinedParts(parts: seq<Bytes>, bodies: seq<Bytes>)
    requires |parts| == 4
    ensures Joined(parts + bodies) == parts[0] + parts[1] + parts[2] + parts[3] + Joined(bodies)
  {
    JoinedSplits(parts + bodies, 4);
    assert (parts + bodies)[..4] == parts && (parts + bodies)[4..] == bodies;
    JoinedStep(parts, 0);
    JoinedStep(parts, 1);
    JoinedStep(parts, 2);
    JoinedStep(parts, 3);
    assert parts[..0] == [] && parts[..4] == parts;
  }

  method CreateBoardRecoveryBundle(json: HeaderText, b: Bundle) returns (file: Option<Bytes>)
    ensures file == if CanBeCreated(json, b) then Some(FileOf(b, json.stringify(HeaderOf(b)))) else None
  {
    var parts := CreateBoardRecoveryBundleParts(json, b);
    if parts.None? {
      return None;
    }
    JoinedParts(parts.value, Bodies(b.assets));
    file := ConcatenateBytes(parts.value + Bodies(b.assets));
    assert FileOf(b, json.stringify(HeaderOf(b))) == Joined(parts.value + Bodies(b.assets));
  }

  // ----- parsing

  /** Cutting one body after the other off the payload. */
  function SplitBodies(descriptors: seq<Descriptor>, payload: Bytes): Option<seq<Asset>>
    decreases |descriptors|
  {
    if descriptors == [] then if payload == [] then Some([]) else None
    else
      var d := descriptors[0];
      if !(0 <= d.byteLength <= |payload|) then None
      else
        var rest := SplitBodies(descriptors[1..], payload[d.byteLength..]);
        if rest.None? then None
        else Some([Asset(d.assetId, d.sha256, d.mimeType, d.fileName, payload[..d.byteLength])] + rest.value)
  }

  function ParsePayload(h: Header, payload: Bytes): Option<Bundle> {
    if !(1 <= h.documentBytes <= |payload|) then None
    else
      var assets := SplitBodies(h.assets, payload[h.documentBytes..]);
      if assets.None? then None
      else Some(Bundle(h.identity, h.reason, h.pendingUpdateCount, h.createdAt, payload[..h.documentBytes], assets.value))
  }

  function Parse(json: HeaderText, file: Bytes): Option<Bundle> {
    var cut := Open(MAGIC, file);
    if cut.None? then None
    else
      var h := json.parse(cut.value.header);
      if h.None? || !ValidFields(json, h.value) then None else ParsePayload(h.value, cut.value.payload)
  }

  /** What is still to be cut, after the first n assets. */
  ghost predicate CutSoFar(descriptors: seq<Descriptor>, payload: Bytes, assets: seq<Asset>, rest: Bytes) {
    && |assets| <= |descriptors|
    && SplitBodies(descriptors, payload) ==
       var later := SplitBodies(descriptors[|assets|..], rest);
       if later.None? then None else Some(assets + later.value)
  }

  lemma CutNothing(descriptors: seq<Descriptor>, payload: Bytes)
    ensures CutSoFar(descriptors, payload, [], payload)
  {
    var none: seq<Asset> := [];
    assert descriptors[|none|..] == descriptors;
    var all := SplitBodies(descriptors, payload);
    assert all.Some? ==> none + all.value == all.value;
  }

  lemma CutOne(descriptors: seq<Descriptor>, payload: Bytes, assets: seq<Asset>, rest: Bytes)
    requires CutSoFar(descriptors, payload, assets, rest) && |assets| < |descriptors|
    ensures var d := descriptors[|assets|];
      if 0 <= d.byteLength <= |rest| then
        CutSoFar(descriptors, payload, assets + [Asset(d.assetId, d.sha256, d.mimeType, d.fileName, rest[..d.byteLength])], rest[d.byteLength..])
      else SplitBodies(descriptors, payload).None?
  {
    var d := descriptors[|assets|];
    assert descriptors[|assets|..][1..] == descriptors[|assets| + 1..];
    if 0 <= d.byteLength <= |rest| {
      var asset := Asset(d.assetId, d.sha256, d.mimeType, d.fileName, rest[..d.byteLength]);
      var later := SplitBodies(descriptors[|assets| + 1..], rest[d.byteLength..]);
      if later.Some? {
        assert assets + ([asset] + later.value) == assets + [asset] + later.value;
      }
    }
  }

  /** The loop over the described assets: each is checked and cut off at the cursor. */
  method ParseAssets(file: Bytes, start: nat, descriptors: seq<Descriptor>) returns (assets: Option<seq<Asset>>)
    requires start <= |file| <= MAX_SAFE_INTEGER
    ensures AllValid(descriptors) ==> assets == SplitBodies(descriptors, file[start..])
    ensures !AllValid(descriptors) ==> assets.None?
  {
    var cursor := start;
    var result: seq<Asset> := [];
    CutNothing(descriptors, file[start..]);
    for index := 0 to |descriptors|
      invariant |result| == index && start <= cursor <= |file|
      invariant CutSoFar(descriptors, file[start..], result, file[cursor..])
      invariant forall i | 0 <= i < index :: ValidDescriptor(descriptors[i])
    {
      var d := descriptors[index];
      if !ValidDescriptor(d) {
        return None;
      }
      CutOne(descriptors, file[start..], result, file[cursor..]);
      var end := cursor + d.byteLength;
      if end > |file| {
        return None;
      }
      assert file[cursor..][..d.byteLength] == file[cursor..end] && file[cursor..][d.byteLength..] == file[end..];
      result := result + [Asset(d.assetId, d.sha256, d.mimeType, d.fileName, file[cursor..end])];
      cursor := end;
    }
    assert descriptors[|descriptors|..] == [];
    if cursor != |file| {
      return None;
    }
    assert file[cursor..] == [];
    assert result + [] == result;
    return Some(result);
  }

  method ParseBoardRecoveryBundle(json: HeaderText, file: Bytes) returns (bundle: Option<Bundle>)
    requires |file| <= MAX_SAFE_INTEGER
    ensures bundle == Parse(json, file)
  {
    var cut := OpenFile(MAGIC, file);
    if cut.None? {
      return None;
    }
    var header := json.parse(cut.value.header);
    if header.None? {
      return None;
    }
    var h := header.value;
    if !ValidIdentity(h.identity) || !NonEmpty(h.reason, 256) || !SafeCount(h.pendingUpdateCount, 0) || !SafeCount(h.documentBytes, 1) {
      return None;
    }
    var start := |file| - |cut.value.payload|;
    var documentEnd := start + h.documentBytes;
    assert file[start..] == cut.value.payload;
    if documentEnd > |file| {
      return None;
    }
    var document := file[start..documentEnd];
    assert document == cut.value.payload[..h.documentBytes] && file[documentEnd..] == cut.value.payload[h.documentBytes..];
    var assets := ParseAssets(file, documentEnd, h.assets);
    if assets.None? || !NonEmpty(h.createdAt, 128) || !json.isDate(h.createdAt) {
      return None;
    }
    return Some(Bundle(h.identity, h.reason, h.pendingUpdateCount, h.createdAt, document, assets.value));
  }

  // ----- creating and parsing are inverse

  lemma FirstAsset(assets: seq<Asset>)
    requires assets != []
    ensures Descriptors(assets) == [DescriptorOf(assets[0])] + Descriptors(assets[1..])
    ensures Joined(Bodies(assets)) == assets[0].bytes + Joined(Bodies(assets[1..]))
  {
    JoinedFirst(Bodies(assets));
    assert Bodies(assets)[1..] == Bodies(assets[1..]);
  }

  /** The bodies found are the only ones with these descriptors that make up the payload. */
  lemma {:induction false} SplitIff(descriptors: seq<Descriptor>, payload: Bytes, assets: seq<Asset>)
    ensures SplitBodies(descriptors, payload) == Some(assets) <==> descriptors == Descriptors(assets) && payload == Joined(Bodies(assets))
    decreases |descriptors|
  {
    if assets != [] {
      FirstAsset(assets);
    } else {
      assert Descriptors(assets) == [] && Bodies(assets) == [];
    }
    if descriptors != [] && assets != [] {
      var d, first := descriptors[0], assets[0];
      if 0 <= d.byteLength <= |payload| {
        SplitIff(descriptors[1..], payload[d.byteLength..], assets[1..]);
        SplitFirst(d, descriptors[1..], payload, first, assets[1..]);
        assert descriptors == [d] + descriptors[1..] && assets == [first] + assets[1..];
      }
    }
  }

  lemma SplitFirst(d: Descriptor, descriptors: seq<Descriptor>, payload: Bytes, first: Asset, assets: seq<Asset>)
    requires 0 <= d.byteLength <= |payload|
    ensures d == DescriptorOf(first) && payload[..d.byteLength] == first.bytes && payload[d.byteLength..] == Joined(Bodies(assets))
            <==> d == DescriptorOf(first) && payload == first.bytes + Joined(Bodies(assets))
  {
  }

  /**
     A file parses as a bundle exactly when it is the magic text, the length of a header that describes the
     bundle, that header, the document and the asset bodies, in order and with nothing else.
   */
  lemma ParseIff(json: HeaderText, file: Bytes, b: Bundle)
    ensures Parse(json, file) == Some(b) <==>
      ValidFields(json, HeaderOf(b)) &&
      exists header: Bytes ::
        && file == FileOf(b, header) && 2 <= |header| <= MAX_HEADER_BYTES && json.parse(header) == Some(HeaderOf(b))
  {
    if Parse(json, file) == Some(b) {
      ParsedIsFile(json, file, b);
    }
    if ValidFields(json, HeaderOf(b)) {
      forall header: Bytes | file == FileOf(b, header) && 2 <= |header| <= MAX_HEADER_BYTES && json.parse(header) == Some(HeaderOf(b))
        ensures Parse(json, file) == Some(b)
      {
        FileParses(json, header, b);
      }
    }
  }

  lemma PayloadIff(h: Header, payload: Bytes, b: Bundle)
    ensures ParsePayload(h, payload) == Some(b) <==> h == HeaderOf(b) && payload == Payload(b)
  {
    if 1 <= h.documentBytes <= |payload| {
      SplitIff(h.assets, payload[h.documentBytes..], b.assets);
      assert payload == payload[..h.documentBytes] + payload[h.documentBytes..];
    }
  }

  lemma ParsedIsFile(json: HeaderText, file: Bytes, b: Bundle)
    requires Parse(json, file) == Some(b)
    ensures ValidFields(json, HeaderOf(b))
    ensures var header := Open(MAGIC, file).value.header;
      file == FileOf(b, header) && 2 <= |header| <= MAX_HEADER_BYTES && json.parse(header) == Some(HeaderOf(b))
  {
    var cut := Open(MAGIC, file).value;
    OpenIff(MAGIC, file, cut.header, cut.payload);
    PayloadIff(json.parse(cut.header).value, cut.payload, b);
  }

  lemma FileParses(json: HeaderText, header: Bytes, b: Bundle)
    requires ValidFields(json, HeaderOf(b)) && 2 <= |header| <= MAX_HEADER_BYTES
    requires json.parse(header) == Some(HeaderOf(b))
    ensures Parse(json, FileOf(b, header)) == Some(b)
  {
    OpenIff(MAGIC, FileOf(b, header), header, Payload(b));
    PayloadIff(HeaderOf(b), Payload(b), b);
  }

  /** A created bundle parses back to exactly what went in. */
  lemma ParseUndoesCreate(json: HeaderText, b: Bundle)
    requires Lawful(json) && CanBeCreated(json, b)
    ensures Parse(json, FileOf(b, json.stringify(HeaderOf(b)))) == Some(b)
  {
    var header := json.stringify(HeaderOf(b));
    assert WrittenBack(json, HeaderOf(b));
    ParseIff(json, FileOf(b, header), b);
  }

  /** A parsed bundle is created again as the same file, if and only if the file's header is written the way headers are written. */
  lemma CreateUndoesParse(json: HeaderText, file: Bytes, b: Bundle)
    requires Lawful(json) && Parse(json, file) == Some(b) && |file| <= MAX_SAFE_INTEGER
    ensures CanBeCreated(json, b) && FileOf(b, json.stringify(HeaderOf(b))) == file
            <==> Open(MAGIC, file).value.header == json.stringify(HeaderOf(b))
  {
    ParsedIsFile(json, file, b);
    var header := Open(MAGIC, file).value.header;
    var text := json.stringify(HeaderOf(b));
    if CanBeCreated(json, b) && FileOf(b, text) == file {
      assert WrittenBack(json, HeaderOf(b));
      OpenIff(MAGIC, file, text, Payload(b));
    }
  }
}
