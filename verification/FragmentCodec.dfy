/**
 Fragments as bytes: a header with the scope and the object ids, and the document update.
 The JSON text of the header and the reading of the document update are parameters.
 */
module FragmentCodec {
  import opened CodeUnits
  import opened Containers
  import opened FragmentInsert
  import opened Leb128
  import opened Reordering
  import opened Wrappers
  import opened ZOrder
  import BoardFrames

  /** "EDURI_BOARD_FRAGMENT_V1\n" */
  const FRAGMENT_MAGIC: Bytes :=
    [69, 68, 85, 82, 73, 95, 66, 79, 65, 82, 68, 95, 70, 82, 65, 71, 77, 69, 78, 84, 95, 86, 49, 10]
  const MAX_DOCUMENT_UPDATE_BYTES := BoardFrames.MAX_UPDATE_BYTES - 4 * 1024 * 1024
  const MAX_ENCODED_BYTES := BoardFrames.MAX_UPDATE_BYTES + 4 * 1024

  lemma MagicIsText(text: string)
    requires text == "EDURI_BOARD_FRAGMENT_V1\n"
    ensures |FRAGMENT_MAGIC| == |text| && forall i | 0 <= i < |text| :: FRAGMENT_MAGIC[i] == text[i] as int
  {
  }

  datatype FragmentScope = FragmentScope(boardId: Text, generation: int, pageId: Text)

  /** A fragment of the current format and schema version. */
  datatype EncodedFragment = EncodedFragment(scope: FragmentScope, objectIds: seq<Text>, documentUpdate: Bytes)

  datatype FragmentHeader = FragmentHeader(scope: FragmentScope, objectIds: seq<Text>, updateBytes: int)

  /**
     `parse` fails on a text that is not JSON of the right shape, format and versions; `objects` fails on an
     update that cannot be applied or holds something else than readable objects.
   */
  datatype FragmentText = FragmentText(stringify: FragmentHeader -> Bytes, parse: Bytes -> Option<FragmentHeader>, objects: Bytes -> Option<Objects>)

  /** Reading undoes writing, for headers whose numbers JSON carries exactly, and no JSON object has a text shorter than two bytes. */
  ghost predicate Lawful(json: FragmentText) {
    forall h | ValidHeader(h) :: WrittenBack(json, h)
  }

  predicate WrittenBack(json: FragmentText, h: FragmentHeader) {
    json.parse(json.stringify(h)) == Some(h) && |json.stringify(h)| >= 2
  }

  predicate OpaqueId(s: Text) {
    1 <= |s| <= 128 && forall i | 0 <= i < |s| ::
      0x41 <= s[i] <= 0x5a || 0x61 <= s[i] <= 0x7a || 0x30 <= s[i] <= 0x39 || s[i] == 0x5f || s[i] == 0x2d
  }

  predicate ValidScope(scope: FragmentScope) {
    OpaqueId(scope.boardId) && 1 <= scope.generation <= MAX_SAFE_INTEGER && StableUuid(scope.pageId)
  }

  predicate ValidHeader(h: FragmentHeader) {
    ValidScope(h.scope) && 1 <= h.updateBytes <= MAX_DOCUMENT_UPDATE_BYTES
  }

  /** The fragment passes `materializeBoardFragment`. */
  ghost predicate Materializes(json: FragmentText, f: EncodedFragment) {
    && ValidScope(f.scope) && 1 <= |f.documentUpdate| <= MAX_DOCUMENT_UPDATE_BYTES
    && json.objects(f.documentUpdate).Some? && WellFormed(Fragment(f.objectIds, json.objects(f.documentUpdate).value))
  }

  function HeaderOf(f: EncodedFragment): FragmentHeader {
    FragmentHeader(f.scope, f.objectIds, |f.documentUpdate|)
  }

  function FileOf(f: EncodedFragment, header: Bytes): Bytes {
    Wrap(FRAGMENT_MAGIC, header, f.documentUpdate)
  }

  method MaterializeFragment(json: FragmentText, f: EncodedFragment) returns (accepted: bool)
    ensures accepted == Materializes(json, f)
  {
    if !ValidScope(f.scope) {
      return false;
    }
    var objects := json.objects(f.documentUpdate);
    if |f.documentUpdate| == 0 || |f.documentUpdate| > MAX_DOCUMENT_UPDATE_BYTES || objects.None? {
      return false;
    }
    var result := MaterializeBoardFragment(Fragment(f.objectIds, objects.value));
    return result.Ok?;
  }

  /** The four fields written into one buffer, each at the offset where the one before it ends. */
  method WriteFile(totalLength: nat, headerBytes: Bytes, documentUpdate: Bytes) returns (file: Bytes)
    requires totalLength == |FRAGMENT_MAGIC| + 4 + |headerBytes| + |documentUpdate|
    ensures file == Wrap(FRAGMENT_MAGIC, headerBytes, documentUpdate)
  {
    var result := new Byte[totalLength];
    var offset := 0;
    Copy(FRAGMENT_MAGIC, result, offset);
    offset := offset + |FRAGMENT_MAGIC|;
    assert result[..offset] == FRAGMENT_MAGIC;
    Copy(PutUint32(|headerBytes|), result, offset);
    assert result[..offset + 4] == result[..offset] + result[offset..offset + 4];
    offset := offset + 4;
    Copy(headerBytes, result, offset);
    assert result[..offset + |headerBytes|] == result[..offset] + result[offset..offset + |headerBytes|];
    offset := offset + |headerBytes|;
    Copy(documentUpdate, result, offset);
    assert result[..] == result[..offset] + result[offset..offset + |documentUpdate|];
    return result[..];
  }

  /** The only refusal beside the fragment's own checks is a header over its limit: the size check after it never fires. */
  method EncodeBoardFragment(json: FragmentText, f: EncodedFragment) returns (file: Option<Bytes>)
    ensures file.Some? <==> Materializes(json, f) && |json.stringify(HeaderOf(f))| <= MAX_HEADER_BYTES
    ensures file.Some? ==> file.value == FileOf(f, json.stringify(HeaderOf(f))) && |file.value| <= MAX_ENCODED_BYTES
  {
    var accepted := MaterializeFragment(json, f);
    if !accepted {
      return None;
    }
    var headerBytes := json.stringify(HeaderOf(f));
    if |headerBytes| > 0xffff_ffff || |headerBytes| > MAX_HEADER_BYTES {
      return None;
    }
    var totalLength := |FRAGMENT_MAGIC| + 4 + |headerBytes| + |f.documentUpdate|;
    if totalLength > MAX_SAFE_INTEGER || totalLength > MAX_ENCODED_BYTES {
      assert false;
      return None;
    }
    var bytes := WriteFile(totalLength, headerBytes, f.documentUpdate);
    return Some(bytes);
  }

  /** Ids that list readable objects in order pass the check of the ids alone. */
  lemma ListedIdsAreValid(f: Fragment)
    ensures WellFormed(f) ==> |f.objectIds| <= MAX_OBJECT_COUNT && AllUuids(f.objectIds) && Distinct(f.objectIds)
  {
    if WellFormed(f) {
      SortedIsDistinct(f.objects, f.objectIds);
      forall i | 0 <= i < |f.objectIds|
        ensures StableUuid(f.objectIds[i])
      {
        assert Ranked(f.objects, f.objectIds[i]);
      }
    }
  }

  method DecodeBoardFragment(json: FragmentText, file: Bytes) returns (fragment: Option<EncodedFragment>)
    ensures fragment == Decode(json, file)
  {
    if |file| > MAX_ENCODED_BYTES {
      return None;
    }
    var cut := OpenFile(FRAGMENT_MAGIC, file);
    if cut.None? {
      return None;
    }
    var header := json.parse(cut.value.header);
    if header.None? {
      return None;
    }
    var h := header.value;
    if h.updateBytes < 1 || h.updateBytes > MAX_DOCUMENT_UPDATE_BYTES || h.updateBytes != |cut.value.payload| {
      return None;
    }
    var ids := ValidateObjectIds(h.objectIds);
    if !ValidScope(h.scope) || ids.Err? {
      if json.objects(cut.value.payload).Some? {
        ListedIdsAreValid(Fragment(h.objectIds, json.objects(cut.value.payload).value));
      }
      return None;
    }
    var f := EncodedFragment(h.scope, h.objectIds, cut.value.payload);
    var accepted := MaterializeFragment(json, f);
    return if accepted then Some(f) else None;
  }

  ghost function Decode(json: FragmentText, file: Bytes): Option<EncodedFragment> {
    var cut := Open(FRAGMENT_MAGIC, file);
    if |file| > MAX_ENCODED_BYTES || cut.None? then None
    else
      var h := json.parse(cut.value.header);
      if h.None? || h.value.updateBytes != |cut.value.payload| then None
      else
        var f := EncodedFragment(h.value.scope, h.value.objectIds, cut.value.payload);
        if Materializes(json, f) then Some(f) else None
  }

  /** A file decodes as a fragment exactly when it is the fragment's own file behind some text of its header. */
  lemma DecodeIff(json: FragmentText, file: Bytes, f: EncodedFragment)
    ensures Decode(json, file) == Some(f) <==>
      Materializes(json, f) &&
      exists header: Bytes ::
        && file == FileOf(f, header) && 2 <= |header| <= MAX_HEADER_BYTES && json.parse(header) == Some(HeaderOf(f))
  {
    if Decode(json, file) == Some(f) {
      DecodedIsFile(json, file, f);
    }
    if Materializes(json, f) {
      forall header: Bytes | file == FileOf(f, header) && 2 <= |header| <= MAX_HEADER_BYTES && json.parse(header) == Some(HeaderOf(f))
        ensures Decode(json, file) == Some(f)
      {
        OpenIff(FRAGMENT_MAGIC, file, header, f.documentUpdate);
      }
    }
  }

  lemma DecodedIsFile(json: FragmentText, file: Bytes, f: EncodedFragment)
    requires Decode(json, file) == Some(f)
    ensures Materializes(json, f)
    ensures var header := Open(FRAGMENT_MAGIC, file).value.header;
      file == FileOf(f, header) && 2 <= |header| <= MAX_HEADER_BYTES && json.parse(header) == Some(HeaderOf(f))
  {
    var cut := Open(FRAGMENT_MAGIC, file).value;
    OpenIff(FRAGMENT_MAGIC, file, cut.header, cut.payload);
  }

  /** Whatever is encoded decodes to itself. */
  lemma DecodeUndoesEncode(json: FragmentText, f: EncodedFragment)
    requires Lawful(json) && Materializes(json, f) && |json.stringify(HeaderOf(f))| <= MAX_HEADER_BYTES
    ensures Decode(json, FileOf(f, json.stringify(HeaderOf(f)))) == Some(f)
  {
    assert WrittenBack(json, HeaderOf(f));
    DecodeIff(json, FileOf(f, json.stringify(HeaderOf(f))), f);
  }

  /** What decodes is encoded again as the same file, if and only if its header is written the way headers are written. */
  lemma EncodeUndoesDecode(json: FragmentText, file: Bytes, f: EncodedFragment)
    requires Lawful(json) && Decode(json, file) == Some(f)
    ensures |json.stringify(HeaderOf(f))| <= MAX_HEADER_BYTES && FileOf(f, json.stringify(HeaderOf(f))) == file
            <==> Open(FRAGMENT_MAGIC, file).value.header == json.stringify(HeaderOf(f))
  {
    DecodedIsFile(json, file, f);
    var text := json.stringify(HeaderOf(f));
    assert WrittenBack(json, HeaderOf(f));
    if |text| <= MAX_HEADER_BYTES && FileOf(f, text) == file {
      OpenIff(FRAGMENT_MAGIC, file, text, f.documentUpdate);
    }
  }
}
