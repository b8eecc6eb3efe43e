/** The outer form of board files: a magic text, the header's length, the header, and a payload. */
module Containers {
  import opened Leb128
  import opened Wrappers

  const MAX_HEADER_BYTES := 4 * 1024 * 1024

  /** Little-endian, four bytes. */
  function PutUint32(n: nat): (bytes: Bytes)
    ensures |bytes| == 4
  {
    [n % 0x100, n / 0x100 % 0x100, n / 0x1_0000 % 0x100, n / 0x100_0000 % 0x100]
  }

  function ReadUint32(b0: Byte, b1: Byte, b2: Byte, b3: Byte): (n: nat)
    ensures n < 0x1_0000_0000
  {
    b0 + 0x100 * b1 + 0x1_0000 * b2 + 0x100_0000 * b3
  }

  lemma ReadPutUint32(n: nat)
    requires n < 0x1_0000_0000
    ensures var b := PutUint32(n); ReadUint32(b[0], b[1], b[2], b[3]) == n
  {
    var q1, q2, q3 := n / 0x100, n / 0x1_0000, n / 0x100_0000;
    QuotientsNest(n, q1, q2, q3);
    assert n == 0x100 * q1 + n % 0x100 && q1 == 0x100 * q2 + q1 % 0x100 && q2 == 0x100 * q3 + q2 % 0x100;
    assert q3 < 0x100 && q3 % 0x100 == q3;
  }

  lemma QuotientsNest(n: nat, q1: nat, q2: nat, q3: nat)
    requires q1 == n / 0x100 && q2 == n / 0x1_0000 && q3 == n / 0x100_0000
    ensures q2 == q1 / 0x100 && q3 == q2 / 0x100
  {
  }

  lemma PutReadUint32(b0: Byte, b1: Byte, b2: Byte, b3: Byte)
    ensures PutUint32(ReadUint32(b0, b1, b2, b3)) == [b0, b1, b2, b3]
  {
    var n := ReadUint32(b0, b1, b2, b3);
    assert n / 0x100 == b1 + 0x100 * b2 + 0x1_0000 * b3;
    assert n / 0x1_0000 == b2 + 0x100 * b3;
    assert n / 0x100_0000 == b3;
  }

  function Wrap(magic: Bytes, header: Bytes, payload: Bytes): Bytes {
    magic + PutUint32(|header|) + header + payload
  }

  datatype Opened = Opened(header: Bytes, payload: Bytes)

  /** The magic text is there, and a header of an acceptable length. */
  predicate Opens(magic: Bytes, bytes: Bytes) {
    && |bytes| >= |magic| + 4 && bytes[..|magic|] == magic
    && 2 <= HeaderLength(magic, bytes) <= MAX_HEADER_BYTES && |magic| + 4 + HeaderLength(magic, bytes) <= |bytes|
  }

  function HeaderLength(magic: Bytes, bytes: Bytes): nat
    requires |bytes| >= |magic| + 4
  {
    var m := |magic|;
    ReadUint32(bytes[m], bytes[m + 1], bytes[m + 2], bytes[m + 3])
  }

  function Open(magic: Bytes, bytes: Bytes): Option<Opened> {
    if !Opens(magic, bytes) then None
    else
      var start := |magic| + 4;
      var end := start + HeaderLength(magic, bytes);
      Some(Opened(bytes[start..end], bytes[end..]))
  }

  lemma OpenedIsWrapped(magic: Bytes, bytes: Bytes, header: Bytes, payload: Bytes)
    requires Open(magic, bytes) == Some(Opened(header, payload))
    ensures bytes == Wrap(magic, header, payload) && 2 <= |header| <= MAX_HEADER_BYTES
  {
    var m := |magic|;
    PutReadUint32(bytes[m], bytes[m + 1], bytes[m + 2], bytes[m + 3]);
    assert bytes[m..m + 4] == PutUint32(|header|);
    assert bytes == bytes[..m] + bytes[m..m + 4] + header + payload;
  }

  lemma WrappedOpens(magic: Bytes, bytes: Bytes, header: Bytes, payload: Bytes)
    requires bytes == Wrap(magic, header, payload) && 2 <= |header| <= MAX_HEADER_BYTES
    ensures Open(magic, bytes) == Some(Opened(header, payload))
  {
    var m := |magic|;
    ReadPutUint32(|header|);
    assert bytes[..m] == magic;
    assert bytes[m..m + 4] == PutUint32(|header|);
    var field := bytes[m..m + 4];
    assert bytes[m] == field[0] && bytes[m + 1] == field[1] && bytes[m + 2] == field[2] && bytes[m + 3] == field[3];
    assert HeaderLength(magic, bytes) == |header|;
    assert bytes[m + 4..m + 4 + |header|] == header && bytes[m + 4 + |header|..] == payload;
  }

  /** Opening and wrapping are inverse: there is one way to cut an accepted file, and it covers all of it. */
  lemma OpenIff(magic: Bytes, bytes: Bytes, header: Bytes, payload: Bytes)
    ensures Open(magic, bytes) == Some(Opened(header, payload))
            <==> bytes == Wrap(magic, header, payload) && 2 <= |header| <= MAX_HEADER_BYTES
  {
    if Open(magic, bytes) == Some(Opened(header, payload)) {
      OpenedIsWrapped(magic, bytes, header, payload);
    }
    if bytes == Wrap(magic, header, payload) && 2 <= |header| <= MAX_HEADER_BYTES {
      WrappedOpens(magic, bytes, header, payload);
    }
  }

  /** The number whose least byte comes first. */
  function LittleEndian(s: Bytes): nat {
    if s == [] then 0 else s[0] + 0x100 * LittleEndian(s[1..])
  }

  lemma FourBytes(b0: Byte, b1: Byte, b2: Byte, b3: Byte)
    ensures LittleEndian([b0, b1, b2, b3]) == ReadUint32(b0, b1, b2, b3)
  {
    assert [b0, b1, b2, b3][1..] == [b1, b2, b3] && [b1, b2, b3][1..] == [b2, b3] && [b2, b3][1..] == [b3];
    assert LittleEndian([b3]) == b3;
    assert LittleEndian([b2, b3]) == b2 + 0x100 * b3;
    assert LittleEndian([b1, b2, b3]) == b1 + 0x100 * (b2 + 0x100 * b3);
  }

  /** Where everything is in a file: the magic text, the length of the header least byte first, the header, the payload. */
  lemma FileLayout(magic: Bytes, header: Bytes, payload: Bytes)
    requires |header| < 0x1_0000_0000
    ensures var file, m := Wrap(magic, header, payload), |magic|;
      && |file| == m + 4 + |header| + |payload|
      && file[..m] == magic && file[m + 4..m + 4 + |header|] == header && file[m + 4 + |header|..] == payload
      && LittleEndian(file[m..m + 4]) == |header|
  {
    ReadPutUint32(|header|);
    var file, m, n := Wrap(magic, header, payload), |magic|, PutUint32(|header|);
    FourBytes(n[0], n[1], n[2], n[3]);
    assert file[m..m + 4] == n == [n[0], n[1], n[2], n[3]];
  }

  /** The magic text byte by byte, then the length of the header; and the cut they lead to. */
  method OpenFile(magic: Bytes, bytes: Bytes) returns (file: Option<Opened>)
    ensures file == Open(magic, bytes)
  {
    var prefixBytes := |magic| + 4;
    if |bytes| < prefixBytes {
      return None;
    }
    for index := 0 to |magic|
      invariant bytes[..index] == magic[..index]
    {
      if bytes[index] != magic[index] {
        assert bytes[..|magic|][index] != magic[index];
        return None;
      }
      assert bytes[..index + 1] == bytes[..index] + [bytes[index]] && magic[..index + 1] == magic[..index] + [magic[index]];
    }
    assert magic[..|magic|] == magic;
    var m := |magic|;
    var headerLength := ReadUint32(bytes[m], bytes[m + 1], bytes[m + 2], bytes[m + 3]);
    if headerLength < 2 || headerLength > MAX_HEADER_BYTES || prefixBytes + headerLength > |bytes| {
      return None;
    }
    return Some(Opened(bytes[prefixBytes..prefixBytes + headerLength], bytes[prefixBytes + headerLength..]));
  }

  // ----- concatenation

  function Joined(parts: seq<Bytes>): Bytes
    decreases |parts|
  {
    if parts == [] then [] else Joined(parts[..|parts| - 1]) + parts[|parts| - 1]
  }

  lemma JoinedStep(parts: seq<Bytes>, n: nat)
    requires n < |parts|
    ensures Joined(parts[..n + 1]) == Joined(parts[..n]) + parts[n]
  {
    assert parts[..n + 1][..n] == parts[..n];
  }

  lemma {:induction false} JoinedSplits(parts: seq<Bytes>, n: nat)
    requires n <= |parts|
    ensures Joined(parts) == Joined(parts[..n]) + Joined(parts[n..])
    decreases |parts| - n
  {
    assert parts[|parts|..] == [] && parts[..|parts|] == parts;
    if n < |parts| {
      JoinedSplits(parts, n + 1);
      JoinedStep(parts, n);
      JoinedFirst(parts[n..]);
      assert parts[n..][1..] == parts[n + 1..];
    }
  }

  lemma {:induction false} JoinedFirst(parts: seq<Bytes>)
    requires parts != []
    ensures Joined(parts) == parts[0] + Joined(parts[1..])
    decreases |parts|
  {
    var last := |parts| - 1;
    if last > 0 {
      JoinedFirst(parts[..last]);
      assert parts[..last][1..] == parts[1..][..last - 1];
    } else {
      assert parts[1..] == [];
    }
  }

  method Copy(part: Bytes, result: array<Byte>, offset: nat)
    requires offset + |part| <= result.Length
    modifies result
    ensures result[..offset] == old(result[..offset]) && result[offset..offset + |part|] == part
  {
    for i := 0 to |part|
      invariant result[..offset] == old(result[..offset]) && result[offset..offset + i] == part[..i]
    {
      result[offset + i] := part[i];
    }
  }

  /** The sum of the lengths, unless it stops being an exact number. */
  method TotalLength(parts: seq<Bytes>) returns (total: Option<nat>)
    ensures total == if |Joined(parts)| <= MAX_SAFE_INTEGER then Some(|Joined(parts)|) else None
  {
    var totalLength := 0;
    for index := 0 to |parts|
      invariant totalLength == |Joined(parts[..index])| <= MAX_SAFE_INTEGER
    {
      JoinedStep(parts, index);
      JoinedSplits(parts, index + 1);
      totalLength := totalLength + |parts[index]|;
      if totalLength > MAX_SAFE_INTEGER {
        return None;
      }
    }
    assert parts[..|parts|] == parts;
    return Some(totalLength);
  }

  /** All the parts, one after the other and without gaps; refused when their length is not an exact number. */
  method ConcatenateBytes(parts: seq<Bytes>) returns (result: Option<Bytes>)
    ensures result == if |Joined(parts)| <= MAX_SAFE_INTEGER then Some(Joined(parts)) else None
  {
    var total := TotalLength(parts);
    if total.None? {
      return None;
    }
    var buffer := new Byte[total.value];
    var offset := 0;
    for index := 0 to |parts|
      invariant offset == |Joined(parts[..index])| <= buffer.Length && buffer[..offset] == Joined(parts[..index])
    {
      JoinedStep(parts, index);
      JoinedSplits(parts, index + 1);
      Copy(parts[index], buffer, offset);
      assert buffer[..offset + |parts[index]|] == buffer[..offset] + buffer[offset..offset + |parts[index]|];
      offset := offset + |parts[index]|;
    }
    assert parts[..|parts|] == parts && buffer[..offset] == buffer[..];
    return Some(buffer[..]);
  }
}
