/** Locating, extracting and re-inserting the Exif APP1 segment of a JPEG byte
    stream (src/shared/exif.ts). Marker codes follow Table B.1 of ITU-T T.81; a
    segment's 2-byte big-endian length counts itself (clause B.1.1.4); an Exif APP1
    payload starts with "Exif" and two zero bytes (section 4.7.2 of Exif 2.x). */
module Exif {
  import opened Wrappers

  /** One element of a Uint8Array. */
  type Byte = b: int | 0 <= b < 256

  const MarkerPrefix: Byte := 0xFF
  const Soi: Byte := 0xD8
  const Eoi: Byte := 0xD9
  const Sos: Byte := 0xDA
  const App1: Byte := 0xE1
  const ExifSignature: seq<Byte> := [0x45, 0x78, 0x69, 0x66, 0x00, 0x00]

  /** The stream opens with the start-of-image marker FF D8. */
  predicate StartsWithSoi(bytes: seq<Byte>)
  {
    |bytes| >= 2 && bytes[0] == MarkerPrefix && bytes[1] == Soi
  }

  /** isExifSegment: each signature byte equals the byte at the same distance from
      `offset`; a position past the end reads as undefined and never matches. */
  function IsExifSegment(bytes: seq<Byte>, offset: nat): (r: bool)
    ensures r <==> offset + |ExifSignature| <= |bytes| && bytes[offset..offset + |ExifSignature|] == ExifSignature
  {
    var ok := forall i | 0 <= i < |ExifSignature| :: offset + i < |bytes| && bytes[offset + i] == ExifSignature[i];
    assert ok ==> ExifSignature[5] == 0 && offset + 5 < |bytes|;
    ok
  }

  /** readUint16: the big-endian 16-bit number in the two bytes at `offset`. */
  function ReadUint16(bytes: seq<Byte>, offset: nat): (r: nat)
    requires offset + 2 <= |bytes|
    ensures r < 0x1_0000
    ensures r / 256 == bytes[offset] && r % 256 == bytes[offset + 1]
  {
    bytes[offset] as int * 256 + bytes[offset + 1]
  }

  /** The two bytes `(n >> 8) & 0xff, n & 0xff` of a 16-bit length field. */
  function Uint16Bytes(n: nat): (r: seq<Byte>)
    ensures |r| == 2
  {
    [(n / 256) % 256, n % 256]
  }

  /** Writing a 16-bit number and reading it back gives the number. */
  lemma ReadUint16Inverse(n: nat)
    requires n < 0x1_0000
    ensures ReadUint16(Uint16Bytes(n), 0) == n
  {
  }

  /** The end of the segment whose marker is at `offset`: its content starts at
      offset + 4 and, the length counting its own two bytes, runs length - 2 bytes. */
  function SegmentEnd(bytes: seq<Byte>, offset: nat): (r: int)
    requires offset + 4 <= |bytes|
    ensures offset + 2 <= r
  {
    offset + 4 + ReadUint16(bytes, offset + 2) - 2
  }

  /** The marker at `offset` ends the scan: EOI, or SOS after which entropy-coded
      data follows. */
  predicate IsTerminal(bytes: seq<Byte>, offset: nat)
  {
    offset + 2 <= |bytes| && bytes[offset] == MarkerPrefix && (bytes[offset + 1] == Eoi || bytes[offset + 1] == Sos)
  }

  /** What one iteration of the scan does at `offset`. */
  datatype Step = Stop | Found | Continue(next: nat)

  /** One iteration of extractExifSegment's loop at `offset`: stop (too few bytes
      left, no marker prefix, EOI or SOS, or a segment running past the end), report
      the Exif APP1 segment found here, or continue at this segment's end. */
  function StepAt(bytes: seq<Byte>, offset: nat): (s: Step)
    ensures s.Continue? ==> offset + 2 <= s.next <= |bytes|
    ensures s.Found? ==>
      && offset + 4 <= |bytes|
      && bytes[offset] == MarkerPrefix && bytes[offset + 1] == App1
      && SegmentEnd(bytes, offset) <= |bytes|
      && IsExifSegment(bytes, offset + 4)
    ensures s == Stop <==>
      || offset + 4 > |bytes|
      || bytes[offset] != MarkerPrefix
      || IsTerminal(bytes, offset)
      || SegmentEnd(bytes, offset) > |bytes|
    ensures s.Found? <==> s != Stop && bytes[offset + 1] == App1 && IsExifSegment(bytes, offset + 4)
    ensures s.Continue? ==> s.next == SegmentEnd(bytes, offset)
  {
    if offset + 4 > |bytes| then Stop
    else if bytes[offset] != MarkerPrefix then Stop
    else if bytes[offset + 1] == Eoi || bytes[offset + 1] == Sos then Stop
    else if SegmentEnd(bytes, offset) > |bytes| then Stop
    else if bytes[offset + 1] == App1 && IsExifSegment(bytes, offset + 4) then Found
    else Continue(SegmentEnd(bytes, offset))
  }

  /** The offset of the first Exif APP1 segment the marker walk from `offset` meets. */
  function ScanFrom(bytes: seq<Byte>, offset: nat): (r: Option<nat>)
    ensures r.Some? ==> offset <= r.value && StepAt(bytes, r.value) == Found
    decreases |bytes| - offset
  {
    match StepAt(bytes, offset)
    case Stop => None
    case Found => Some(offset)
    case Continue(next) => ScanFrom(bytes, next)
  }

  /** The value extractExifSegment returns: the segment the walk from offset 2 finds,
      marker and length included, in a stream that starts with SOI and has at least 4 bytes. */
  function Extract(bytes: seq<Byte>): (r: Option<seq<Byte>>)
    ensures |bytes| < 4 || !StartsWithSoi(bytes) ==> r == None
    ensures r.Some? ==>
      && ScanFrom(bytes, 2).Some?
      && var offset := ScanFrom(bytes, 2).value;
      && 2 <= offset
      && r.value == bytes[offset..offset + 2 + ReadUint16(bytes, offset + 2)]
      && r.value[..2] == [MarkerPrefix, App1]
      && bytes[offset + 4..offset + 10] == ExifSignature
  {
    if |bytes| < 4 || bytes[0] != MarkerPrefix || bytes[1] != Soi then None
    else match ScanFrom(bytes, 2)
      case None => None
      case Some(offset) =>
        var segment := bytes[offset..SegmentEnd(bytes, offset)];
        assert segment[..2] == [bytes[offset], bytes[offset + 1]];
        Some(segment)
  }

  /** extractExifSegment: the marker scan as the source writes it, a loop that moves
      `offset` from segment to segment. */
  method ExtractExifSegment(bytes: seq<Byte>) returns (r: Option<seq<Byte>>)
    ensures r == Extract(bytes)
  {
    if |bytes| < 4 || bytes[0] != MarkerPrefix || bytes[1] != Soi {
      return None;
    }
    var offset := 2;
    while offset + 4 <= |bytes|
      invariant 2 <= offset <= |bytes|
      invariant ScanFrom(bytes, offset) == ScanFrom(bytes, 2)
      decreases |bytes| - offset
    {
      if bytes[offset] != MarkerPrefix {
        assert StepAt(bytes, offset) == Stop;
        break;
      }
      var marker := bytes[offset + 1];
      if marker == Eoi || marker == Sos {
        assert StepAt(bytes, offset) == Stop;
        break;
      }
      var segmentLength := ReadUint16(bytes, offset + 2);
      var segmentStart := offset + 4;
      var segmentEnd := segmentStart + segmentLength - 2;
      assert segmentEnd == SegmentEnd(bytes, offset);
      if segmentEnd > |bytes| {
        assert StepAt(bytes, offset) == Stop;
        break;
      }
      if marker == App1 && IsExifSegment(bytes, segmentStart) {
        assert StepAt(bytes, offset) == Found;
        return Some(bytes[offset..segmentEnd]);
      }
      assert StepAt(bytes, offset) == Continue(segmentEnd);
      offset := segmentEnd;
    }
    assert ScanFrom(bytes, offset) == None;
    return None;
  }

  /** The value insertExifSegment returns: the segment spliced in right after SOI,
      or the buffer untouched when there is no segment or no SOI. */
  function Inserted(buffer: seq<Byte>, exifSegment: Option<seq<Byte>>): (r: seq<Byte>)
    ensures exifSegment.None? || exifSegment.value == [] || !StartsWithSoi(buffer) ==> r == buffer
    ensures exifSegment.Some? && exifSegment.value != [] && StartsWithSoi(buffer) ==>
      var segment := exifSegment.value;
      && |r| == |buffer| + |segment|
      && r[..2] == buffer[..2]
      && r[2..2 + |segment|] == segment
      && forall i | 2 <= i < |buffer| :: r[i + |segment|] == buffer[i]
  {
    if exifSegment.None? || |exifSegment.value| == 0 then buffer
    else if |buffer| < 2 || buffer[0] != MarkerPrefix || buffer[1] != Soi then buffer
    else buffer[..2] + exifSegment.value + buffer[2..]
  }

  /** insertExifSegment: allocates the output and fills it with three block copies. */
  method InsertExifSegment(buffer: seq<Byte>, exifSegment: Option<seq<Byte>>) returns (r: seq<Byte>)
    ensures r == Inserted(buffer, exifSegment)
  {
    if exifSegment.None? || |exifSegment.value| == 0 {
      return buffer;
    }
    if |buffer| < 2 || buffer[0] != MarkerPrefix || buffer[1] != Soi {
      return buffer;
    }
    var segment := exifSegment.value;
    var output := new Byte[|buffer| + |segment|];
    forall i | 0 <= i < 2 {
      output[i] := buffer[i];
    }
    forall i | 0 <= i < |segment| {
      output[2 + i] := segment[i];
    }
    forall i | 2 <= i < |buffer| {
      output[|segment| + i] := buffer[i];
    }
    assert output[..] == buffer[..2] + segment + buffer[2..];
    r := output[..];
  }

  /** The marker walk from `offset` reaches `p`: every segment before `p` was passed over. */
  ghost predicate Visits(bytes: seq<Byte>, offset: nat, p: nat)
    decreases |bytes| - offset
  {
    offset == p || (StepAt(bytes, offset).Continue? && Visits(bytes, StepAt(bytes, offset).next, p))
  }

  /** Once the walk reaches `p`, the scan's answer is the answer from `p`. */
  lemma {:induction false} VisitedScanAgrees(bytes: seq<Byte>, offset: nat, p: nat)
    requires Visits(bytes, offset, p)
    ensures ScanFrom(bytes, offset) == ScanFrom(bytes, p)
    decreases |bytes| - offset
  {
    if offset != p {
      VisitedScanAgrees(bytes, StepAt(bytes, offset).next, p);
    }
  }

  /** The segment the scan returns is on the walk, and every earlier stop of the walk
      was a segment passed over, never EOI or SOS: nothing at or after SOS is returned. */
  lemma {:induction false} FoundPrecedesTerminal(bytes: seq<Byte>, offset: nat, p: nat)
    requires ScanFrom(bytes, offset).Some? && Visits(bytes, offset, p)
    ensures Visits(bytes, offset, ScanFrom(bytes, offset).value)
    ensures p <= ScanFrom(bytes, offset).value && !IsTerminal(bytes, p)
    decreases |bytes| - offset
  {
    VisitedScanAgrees(bytes, offset, p);
    match StepAt(bytes, offset)
    case Found =>
    case Continue(next) =>
      if offset == p {
        FoundPrecedesTerminal(bytes, next, next);
      } else {
        FoundPrecedesTerminal(bytes, next, p);
      }
  }

  /** A walk that reaches EOI or SOS finds nothing. */
  lemma NothingPastTerminal(bytes: seq<Byte>, offset: nat, p: nat)
    requires Visits(bytes, offset, p) && IsTerminal(bytes, p)
    ensures ScanFrom(bytes, offset) == None
  {
    if ScanFrom(bytes, offset).Some? {
      FoundPrecedesTerminal(bytes, offset, p);
    }
  }

  /** An Exif segment the walk from offset 2 reaches is the segment extraction returns. */
  lemma FoundOnWalkIsExtracted(bytes: seq<Byte>, p: nat)
    requires StartsWithSoi(bytes) && 4 <= |bytes|
    requires Visits(bytes, 2, p) && StepAt(bytes, p) == Found
    ensures Extract(bytes) == Some(bytes[p..SegmentEnd(bytes, p)])
  {
    VisitedScanAgrees(bytes, 2, p);
  }

  /** buildExifSegment of tests/e2e/exif.spec.ts: APP1 marker, the length of
      signature and payload plus the two length bytes, the signature, the payload. */
  function BuildExifSegment(payload: seq<Byte>): (s: seq<Byte>)
    ensures |s| == |payload| + 10
    ensures s[4..10] == ExifSignature && s[10..] == payload
  {
    var length := |payload| + |ExifSignature| + 2;
    [MarkerPrefix, App1] + Uint16Bytes(length) + ExifSignature + payload
  }

  /** A complete Exif APP1 segment: marker, a length field that matches the segment's
      size, and the signature inside the segment. */
  predicate WellFormedSegment(s: seq<Byte>)
  {
    && 10 <= |s|
    && s[0] == MarkerPrefix && s[1] == App1
    && ReadUint16(s, 2) + 2 == |s|
    && s[4..10] == ExifSignature
  }

  /** A built segment is well formed as long as its length fits the 16-bit field. */
  lemma BuiltSegmentWellFormed(payload: seq<Byte>)
    requires |payload| + 8 < 0x1_0000
    ensures WellFormedSegment(BuildExifSegment(payload))
  {
    var s := BuildExifSegment(payload);
    assert s[4..10] == ExifSignature;
  }

  /** A well-formed segment inserted after SOI is the segment extraction finds, even
      when the stream already held an Exif segment further on. */
  lemma InsertThenExtract(buffer: seq<Byte>, segment: seq<Byte>)
    requires StartsWithSoi(buffer) && WellFormedSegment(segment)
    ensures Extract(Inserted(buffer, Some(segment))) == Some(segment)
  {
    var out := Inserted(buffer, Some(segment));
    assert out[2..2 + |segment|] == segment;
    assert out[2..4] == segment[..2];
    assert out[4..6] == segment[2..4];
    assert ReadUint16(out, 4) == ReadUint16(segment, 2);
    assert out[6..12] == segment[4..10];
    assert StepAt(out, 2) == Found;
  }

  /** The round trip of tests/e2e/exif.spec.ts: a segment built from any payload that
      fits the length field survives insertion and extraction unchanged. */
  lemma RoundTrip(buffer: seq<Byte>, payload: seq<Byte>)
    requires StartsWithSoi(buffer) && |payload| + 8 < 0x1_0000
    ensures Extract(Inserted(buffer, Some(BuildExifSegment(payload)))) == Some(BuildExifSegment(payload))
  {
    BuiltSegmentWellFormed(payload);
    InsertThenExtract(buffer, BuildExifSegment(payload));
  }

  /** The export path: a segment extracted from the original photo whose declared
      length covers the signature, inserted into a freshly encoded JPEG, is found again. */
  lemma ExtractedSegmentSurvivesExport(original: seq<Byte>, encoded: seq<Byte>)
    requires Extract(original).Some? && |Extract(original).value| >= 10
    requires StartsWithSoi(encoded)
    ensures Extract(Inserted(encoded, Extract(original))) == Extract(original)
  {
    var s := Extract(original).value;
    var offset := ScanFrom(original, 2).value;
    assert s == original[offset..offset + |s|];
    assert forall i | 0 <= i < |s| :: s[i] == original[offset + i];
    assert s[2..4] == original[offset + 2..offset + 4];
    assert ReadUint16(s, 2) == ReadUint16(original, offset + 2);
    assert s[4..10] == original[offset + 4..offset + 10];
    InsertThenExtract(encoded, s);
  }

  /** As written, a length field below 2 still passes: the signature is read past the
      declared end, and the "segment" returned is just the 2-byte APP1 marker. */
  lemma ShortLengthFieldQuirk()
    ensures Extract([0xFF, 0xD8, 0xFF, 0xE1, 0x00, 0x00, 0x45, 0x78, 0x69, 0x66, 0x00, 0x00])
         == Some([0xFF, 0xE1])
  {
    var bytes: seq<Byte> := [0xFF, 0xD8, 0xFF, 0xE1, 0x00, 0x00, 0x45, 0x78, 0x69, 0x66, 0x00, 0x00];
    assert bytes[6..12] == ExifSignature;
    assert StepAt(bytes, 2) == Found;
    assert ScanFrom(bytes, 2) == Some(2);
    assert SegmentEnd(bytes, 2) == 4;
    assert bytes[2..4] == [0xFF, 0xE1];
  }
}
