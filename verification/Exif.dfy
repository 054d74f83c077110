/** Finding a camera's own small picture in a photograph: a walk over JPEG marker
    segments (ITU-T T.81, section B.1.1.4), then over the image file directories
    of the TIFF block inside one of them (TIFF 6.0, section 2). */
module Exif {
  import opened Wrappers
  import opened Seqs

  type Byte = x: int | 0 <= x < 256

  const JPEG_INTERCHANGE_FORMAT := 0x0201
  const JPEG_INTERCHANGE_FORMAT_LENGTH := 0x0202

  /** `b` is in `t` at `i`. */
  predicate At(t: seq<Byte>, i: nat, b: seq<Byte>) {
    i + |b| <= |t| && t[i..i + |b|] == b
  }

  lemma AtPart(t: seq<Byte>, i: nat, x: seq<Byte>, j: nat, b: seq<Byte>)
    requires At(t, i, x) && At(x, j, b)
    ensures At(t, i + j, b)
  {
    SliceOfSlice(t, i, i + |x|, j, j + |b|);
  }

  // ----- numbers in either byte order

  function Read16(t: seq<Byte>, i: nat, little: bool): (r: Option<nat>)
    ensures r.Some? <==> i + 2 <= |t|
    ensures r.Some? ==> r.value < 0x1_0000
  {
    if i + 2 <= |t| then
      var b: seq<int> := t[i..i + 2];
      Some(if little then b[0] + 256 * b[1] else 256 * b[0] + b[1])
    else None
  }

  function Read32(t: seq<Byte>, i: nat, little: bool): (r: Option<nat>)
    ensures r.Some? <==> i + 4 <= |t|
    ensures r.Some? ==> r.value < 0x1_0000_0000
  {
    if i + 4 <= |t| then
      var first, second := Read16(t, i, little).value, Read16(t, i + 2, little).value;
      Some(if little then first + 0x1_0000 * second else 0x1_0000 * first + second)
    else None
  }

  function Write16(v: nat, little: bool): (b: seq<Byte>)
    requires v < 0x1_0000
    ensures |b| == 2
  {
    if little then [v % 256, v / 256] else [v / 256, v % 256]
  }

  function Write32(v: nat, little: bool): (b: seq<Byte>)
    requires v < 0x1_0000_0000
    ensures |b| == 4
  {
    var low, high := Write16(v % 0x1_0000, little), Write16(v / 0x1_0000, little);
    if little then low + high else high + low
  }

  lemma ReadAt16(t: seq<Byte>, i: nat, v: nat, little: bool)
    requires v < 0x1_0000 && At(t, i, Write16(v, little))
    ensures Read16(t, i, little) == Some(v)
  {}

  lemma ReadAt32(t: seq<Byte>, i: nat, v: nat, little: bool)
    requires v < 0x1_0000_0000 && At(t, i, Write32(v, little))
    ensures Read32(t, i, little) == Some(v)
  {
    var low, high := v % 0x1_0000, v / 0x1_0000;
    var first, second := if little then low else high, if little then high else low;
    var x, y := Write16(first, little), Write16(second, little);
    assert At(x + y, 0, x) && At(x + y, 2, y);
    AtPart(t, i, x + y, 0, x);
    AtPart(t, i, x + y, 2, y);
    ReadAt16(t, i, first, little);
    ReadAt16(t, i + 2, second, little);
  }

  // ----- image file directories

  /** Where entry `e` of the directory at `ifd` is. */
  function EntryAt(ifd: nat, e: nat): nat { ifd + 2 + e * 12 }

  predicate IsPointer(tag: nat) {
    tag == JPEG_INTERCHANGE_FORMAT || tag == JPEG_INTERCHANGE_FORMAT_LENGTH
  }

  /** Every entry can be read as far as it is looked at. */
  predicate EntriesReadable(t: seq<Byte>, little: bool, ifd: nat, n: nat) {
    forall e | 0 <= e < n ::
      match Read16(t, EntryAt(ifd, e), little)
      case None => false
      case Some(tag) => IsPointer(tag) ==> EntryAt(ifd, e) + 12 <= |t|
  }

  /** The directory gives `tag` the value `v`: in the last entry so tagged, should
      there be more than one. */
  ghost predicate Gives(t: seq<Byte>, little: bool, ifd: nat, n: nat, tag: nat, v: nat) {
    exists e ::
      && 0 <= e < n && Read16(t, EntryAt(ifd, e), little) == Some(tag)
      && Read32(t, EntryAt(ifd, e) + 8, little) == Some(v)
      && forall k | e < k < n :: Read16(t, EntryAt(ifd, k), little) != Some(tag)
  }

  /** The byte order, and where IFD1 is: past IFD0's entries, unless it says
      there is none. */
  function Ifd1(t: seq<Byte>): Option<(bool, nat)> {
    if |t| < 2 || (t[..2] != [0x49, 0x49] && t[..2] != [0x4D, 0x4D]) then None
    else
      var little := t[..2] == [0x49, 0x49];
      match Read32(t, 4, little)
      case None => None
      case Some(ifd0) =>
        match Read16(t, ifd0, little)
        case None => None
        case Some(n) =>
          match Read32(t, EntryAt(ifd0, n), little)
          case None => None
          case Some(ifd1) => if ifd1 == 0 then None else Some((little, ifd1))
  }

  /** What TIFF 6.0 says a TIFF block's thumbnail is: the bytes IFD1's
      JPEGInterchangeFormat and its length name, when those are a JPEG's. */
  ghost predicate IsThumbnail(t: seq<Byte>, thumb: seq<Byte>) {
    && Ifd1(t).Some?
    && var (little, ifd1) := Ifd1(t).value;
       && Read16(t, ifd1, little).Some?
       && var n := Read16(t, ifd1, little).value;
          && EntriesReadable(t, little, ifd1, n)
          && exists offset: nat, length: nat ::
               && Gives(t, little, ifd1, n, JPEG_INTERCHANGE_FORMAT, offset)
               && Gives(t, little, ifd1, n, JPEG_INTERCHANGE_FORMAT_LENGTH, length)
               && offset + length <= |t| && thumb == t[offset..offset + length]
               && [0xFF, 0xD8] <= thumb
  }

  /** What scanning the first `e` entries has found out about a tag. */
  ghost predicate Seen(t: seq<Byte>, little: bool, ifd: nat, e: nat, tag: nat, found: Option<nat>) {
    match found
    case Some(v) => Gives(t, little, ifd, e, tag, v)
    case None => forall k | 0 <= k < e :: Read16(t, EntryAt(ifd, k), little) != Some(tag)
  }

  lemma GivesOne(t: seq<Byte>, little: bool, ifd: nat, n: nat, tag: nat, v: nat, w: nat)
    requires Gives(t, little, ifd, n, tag, v) && Gives(t, little, ifd, n, tag, w)
    ensures v == w
  {}

  lemma SeenNext(t: seq<Byte>, little: bool, ifd: nat, e: nat, tag: nat, found: Option<nat>, next: Option<nat>)
    requires Seen(t, little, ifd, e, tag, found) && Read16(t, EntryAt(ifd, e), little).Some?
    requires if Read16(t, EntryAt(ifd, e), little) == Some(tag)
             then next.Some? && next == Read32(t, EntryAt(ifd, e) + 8, little)
             else next == found
    ensures Seen(t, little, ifd, e + 1, tag, next)
  {
    if next.Some? && next == found && Read16(t, EntryAt(ifd, e), little) != Some(tag) {
      var k :| 0 <= k < e && Read16(t, EntryAt(ifd, k), little) == Some(tag)
               && Read32(t, EntryAt(ifd, k) + 8, little) == next
               && forall j | k < j < e :: Read16(t, EntryAt(ifd, j), little) != Some(tag);
      assert Read16(t, EntryAt(ifd, k), little) == Some(tag);
    }
  }

  /** Once every entry has been looked at, what is left is to cut the slice. */
  lemma ThumbnailNamed(t: seq<Byte>, little: bool, ifd1: nat, n: nat, offset: Option<nat>, length: Option<nat>)
    requires Ifd1(t) == Some((little, ifd1)) && Read16(t, ifd1, little) == Some(n)
    requires EntriesReadable(t, little, ifd1, n)
    requires Seen(t, little, ifd1, n, JPEG_INTERCHANGE_FORMAT, offset)
    requires Seen(t, little, ifd1, n, JPEG_INTERCHANGE_FORMAT_LENGTH, length)
    ensures forall thumb :: IsThumbnail(t, thumb) <==>
              && offset.Some? && length.Some? && offset.value + length.value <= |t|
              && thumb == t[offset.value..offset.value + length.value] && [0xFF, 0xD8] <= thumb
  {
    hide Read16, Read32, EntriesReadable, Ifd1;
    forall v: nat | Gives(t, little, ifd1, n, JPEG_INTERCHANGE_FORMAT, v) ensures offset == Some(v) {
      if offset.Some? { GivesOne(t, little, ifd1, n, JPEG_INTERCHANGE_FORMAT, v, offset.value); }
    }
    forall v: nat | Gives(t, little, ifd1, n, JPEG_INTERCHANGE_FORMAT_LENGTH, v) ensures length == Some(v) {
      if length.Some? { GivesOne(t, little, ifd1, n, JPEG_INTERCHANGE_FORMAT_LENGTH, v, length.value); }
    }
  }

  method ThumbnailIn(t: seq<Byte>) returns (r: Option<seq<Byte>>)
    ensures forall thumb :: r == Some(thumb) <==> IsThumbnail(t, thumb)
  {
    var directory := Ifd1(t);
    if directory == None { return None; }
    var (little, ifd1) := directory.value;
    var count := Read16(t, ifd1, little);
    if count == None { return None; }
    var n := count.value;
    var offset: Option<nat>, length: Option<nat> := None, None;
    hide Read16, Read32, Ifd1, Gives, IsThumbnail, EntriesReadable;
    for e := 0 to n
      invariant EntriesReadable(t, little, ifd1, e)
      invariant Seen(t, little, ifd1, e, JPEG_INTERCHANGE_FORMAT, offset)
      invariant Seen(t, little, ifd1, e, JPEG_INTERCHANGE_FORMAT_LENGTH, length)
    {
      var entry := EntryAt(ifd1, e);
      var tag := Read16(t, entry, little);
      if tag == None { return None; }
      ghost var offset0, length0 := offset, length;
      if tag.value == JPEG_INTERCHANGE_FORMAT || tag.value == JPEG_INTERCHANGE_FORMAT_LENGTH {
        var value := Read32(t, entry + 8, little);
        if value == None { return None; }
        if tag.value == JPEG_INTERCHANGE_FORMAT { offset := value; } else { length := value; }
      }
      SeenNext(t, little, ifd1, e, JPEG_INTERCHANGE_FORMAT, offset0, offset);
      SeenNext(t, little, ifd1, e, JPEG_INTERCHANGE_FORMAT_LENGTH, length0, length);
    }
    ThumbnailNamed(t, little, ifd1, n, offset, length);
    if offset == None || length == None || offset.value + length.value > |t| { return None; }
    var thumb := t[offset.value..offset.value + length.value];
    return if [0xFF, 0xD8] <= thumb then Some(thumb) else None;
  }

  // ----- marker segments

  datatype Segment = Segment(marker: Byte, payload: seq<Byte>) {
    predicate Fits() { |payload| + 2 < 0x1_0000 }

    function Bytes(): (b: seq<Byte>)
      requires Fits()
      ensures |b| == 4 + |payload|
    {
      [0xFF, marker] + Write16(|payload| + 2, false) + payload
    }
  }

  const SOI: seq<Byte> := [0xFF, 0xD8]
  const EXIF: seq<Byte> := [0x45, 0x78, 0x69, 0x66, 0, 0]

  /** A segment the walk goes past: not the image itself, nor an EXIF block. */
  predicate Passed(s: Segment) {
    s.Fits() && s.marker != 0xDA && s.marker != 0xD9 && !(s.marker == 0xE1 && EXIF <= s.payload)
  }

  function SegmentBytes(segments: seq<Segment>): seq<Byte>
    requires AllPassed(segments)
  {
    if segments == [] then [] else segments[0].Bytes() + SegmentBytes(segments[1..])
  }

  /** `rest` is a run of segments to pass, then the EXIF block of `tiff`. */
  ghost predicate HasExif(rest: seq<Byte>, tiff: seq<Byte>) {
    exists segments: seq<Segment>, after: seq<Byte> :: ExifAfter(rest, segments, tiff, after)
  }

  predicate AllPassed(segments: seq<Segment>) { forall i | 0 <= i < |segments| :: Passed(segments[i]) }

  ghost predicate ExifAfter(rest: seq<Byte>, segments: seq<Segment>, tiff: seq<Byte>, after: seq<Byte>) {
    && AllPassed(segments)
    && Segment(0xE1, EXIF + tiff).Fits()
    && rest == SegmentBytes(segments) + Segment(0xE1, EXIF + tiff).Bytes() + after
  }

  /** The first segment of `rest`, and what is left, as far as the bytes go. */
  function FirstSegment(rest: seq<Byte>): (r: Option<Segment>)
    ensures r.Some? ==> r.value.Fits() && r.value.Bytes() <= rest
  {
    if |rest| < 4 || rest[0] != 0xFF then None
    else
      var len := Read16(rest, 2, false).value;
      if len < 2 || 2 + len > |rest| then None
      else
        var s := Segment(rest[1], rest[4..2 + len]);
        assert Write16(len, false) == rest[2..4];
        assert s.Bytes() == rest[..2 + len];
        Some(s)
  }

  lemma FirstSegmentOf(s: Segment, after: seq<Byte>)
    requires s.Fits()
    ensures FirstSegment(s.Bytes() + after) == Some(s)
  {
    var rest := s.Bytes() + after;
    var len := |s.payload| + 2;
    assert rest[2..4] == Write16(len, false);
    ReadAt16(rest, 2, len, false);
    assert rest[4..2 + len] == s.payload;
  }

  /** The walk, on what is left of the file. */
  function FindExif(rest: seq<Byte>): Option<seq<Byte>>
    decreases |rest|
  {
    match FirstSegment(rest)
    case None => None
    case Some(s) =>
      if s.marker == 0xDA || s.marker == 0xD9 then None
      else if s.marker == 0xE1 && EXIF <= s.payload then Some(s.payload[6..])
      else FindExif(rest[|s.Bytes()|..])
  }

  /** The walk finds the EXIF block after any run of other segments, whatever
      follows it. */
  lemma {:induction false} FindsExif(rest: seq<Byte>, segments: seq<Segment>, tiff: seq<Byte>, after: seq<Byte>)
    requires ExifAfter(rest, segments, tiff, after)
    ensures FindExif(rest) == Some(tiff)
    decreases |segments|
  {
    var exif := Segment(0xE1, EXIF + tiff);
    if segments == [] {
      assert rest == exif.Bytes() + after;
      FirstSegmentOf(exif, after);
    } else {
      var tail := SegmentBytes(segments[1..]) + exif.Bytes() + after;
      assert rest == segments[0].Bytes() + tail;
      FirstSegmentOf(segments[0], tail);
      assert rest[|segments[0].Bytes()|..] == tail;
      FindsExif(tail, segments[1..], tiff, after);
    }
  }

  /** And nothing else. */
  lemma {:induction false} FoundIsExif(rest: seq<Byte>, tiff: seq<Byte>)
    requires FindExif(rest) == Some(tiff)
    ensures HasExif(rest, tiff)
    decreases |rest|
  {
    var s := FirstSegment(rest).value;
    var after := rest[|s.Bytes()|..];
    assert rest == s.Bytes() + after;
    if s.marker == 0xE1 && EXIF <= s.payload {
      assert s.payload == EXIF + tiff;
      assert rest == SegmentBytes([]) + s.Bytes() + after;
      assert ExifAfter(rest, [], tiff, after);
    } else {
      FoundIsExif(after, tiff);
      var segments, end :| ExifAfter(after, segments, tiff, end);
      OneMore(rest, s, after, segments, tiff, end);
    }
  }

  lemma OneMore(rest: seq<Byte>, s: Segment, after: seq<Byte>, segments: seq<Segment>, tiff: seq<Byte>, end: seq<Byte>)
    requires Passed(s) && rest == s.Bytes() + after && ExifAfter(after, segments, tiff, end)
    ensures ExifAfter(rest, [s] + segments, tiff, end)
  {
    var all := [s] + segments;
    assert all[1..] == segments;
    var exif := Segment(0xE1, EXIF + tiff).Bytes();
    assert s.Bytes() + (SegmentBytes(segments) + exif + end) == s.Bytes() + SegmentBytes(segments) + exif + end;
  }

  /** What the walk finds at one place: nowhere to go on to, the EXIF block, or
      a segment to pass and where it ends. */
  datatype Place = Stop | Exif(tiff: seq<Byte>) | Next(at: nat)

  function Look(jpeg: seq<Byte>, at: nat): (p: Place)
    requires at + 4 <= |jpeg|
    ensures p.Next? ==> at < p.at <= |jpeg|
  {
    if jpeg[at] != 0xFF then Stop
    else
      var marker, len := jpeg[at + 1], Read16(jpeg, at + 2, false).value;
      // The image itself begins.
      if marker == 0xDA || marker == 0xD9 then Stop
      else if len < 2 || at + 2 + len > |jpeg| then Stop
      else
        var body := jpeg[at + 4..at + 2 + len];
        if marker == 0xE1 && EXIF <= body then Exif(body[6..]) else Next(at + 2 + len)
  }

  lemma WalkFrom(jpeg: seq<Byte>, at: nat)
    requires at + 4 <= |jpeg|
    ensures FindExif(jpeg[at..]) == match Look(jpeg, at)
                                    case Stop => None
                                    case Exif(tiff) => Some(tiff)
                                    case Next(next) => FindExif(jpeg[next..])
  {
    var rest := jpeg[at..];
    assert rest[2..4] == jpeg[at + 2..at + 4];
    assert Read16(rest, 2, false) == Read16(jpeg, at + 2, false);
    hide Read16;
    if jpeg[at] == 0xFF {
      var len := Read16(jpeg, at + 2, false).value;
      if 2 <= len && at + 2 + len <= |jpeg| {
        SliceOfSlice(jpeg, at, |jpeg|, 4, 2 + len);
        assert rest == jpeg[at..|jpeg|];
        assert rest[2 + len..] == jpeg[at + 2 + len..];
      }
    }
  }

  /** What a JPEG's thumbnail is: the one named by its first EXIF block, which
      comes before the image. */
  ghost predicate HasThumbnail(jpeg: seq<Byte>, thumb: seq<Byte>) {
    SOI <= jpeg && exists tiff :: HasExif(jpeg[2..], tiff) && IsThumbnail(tiff, thumb)
  }

  lemma OnlyExif(jpeg: seq<Byte>, tiff: seq<Byte>)
    requires SOI <= jpeg && FindExif(jpeg[2..]) == Some(tiff)
    ensures forall thumb :: HasThumbnail(jpeg, thumb) <==> IsThumbnail(tiff, thumb)
  {
    hide IsThumbnail;
    FoundIsExif(jpeg[2..], tiff);
    forall other | HasExif(jpeg[2..], other) ensures other == tiff {
      var segments, after :| ExifAfter(jpeg[2..], segments, other, after);
      FindsExif(jpeg[2..], segments, other, after);
    }
  }

  lemma NoExif(jpeg: seq<Byte>)
    requires SOI <= jpeg && FindExif(jpeg[2..]) == None
    ensures forall thumb :: !HasThumbnail(jpeg, thumb)
  {
    hide IsThumbnail;
    forall tiff | HasExif(jpeg[2..], tiff) ensures false {
      var segments, after :| ExifAfter(jpeg[2..], segments, tiff, after);
      FindsExif(jpeg[2..], segments, tiff, after);
    }
  }

  /** A file has at most one thumbnail. */
  lemma OneThumbnail(jpeg: seq<Byte>, a: seq<Byte>, b: seq<Byte>)
    requires HasThumbnail(jpeg, a) && HasThumbnail(jpeg, b)
    ensures a == b
  {
    var tiff :| HasExif(jpeg[2..], tiff) && IsThumbnail(tiff, a);
    var segments, after :| ExifAfter(jpeg[2..], segments, tiff, after);
    hide IsThumbnail;
    FindsExif(jpeg[2..], segments, tiff, after);
    OnlyExif(jpeg, tiff);
    OneThumbnailIn(tiff, a, b);
  }

  lemma OneThumbnailIn(t: seq<Byte>, a: seq<Byte>, b: seq<Byte>)
    requires IsThumbnail(t, a) && IsThumbnail(t, b)
    ensures a == b
  {
    var (little, ifd1) := Ifd1(t).value;
    var n := Read16(t, ifd1, little).value;
    hide Read16, Read32, Ifd1, EntriesReadable;
    forall v: nat, w: nat | Gives(t, little, ifd1, n, JPEG_INTERCHANGE_FORMAT, v)
                            && Gives(t, little, ifd1, n, JPEG_INTERCHANGE_FORMAT, w)
      ensures v == w
    {
      GivesOne(t, little, ifd1, n, JPEG_INTERCHANGE_FORMAT, v, w);
    }
    forall v: nat, w: nat | Gives(t, little, ifd1, n, JPEG_INTERCHANGE_FORMAT_LENGTH, v)
                            && Gives(t, little, ifd1, n, JPEG_INTERCHANGE_FORMAT_LENGTH, w)
      ensures v == w
    {
      GivesOne(t, little, ifd1, n, JPEG_INTERCHANGE_FORMAT_LENGTH, v, w);
    }
  }

  /** The program returns the file's thumbnail, and none only if it has none. */
  method ExifThumbnail(jpeg: seq<Byte>) returns (r: Option<seq<Byte>>)
    ensures r.Some? ==> HasThumbnail(jpeg, r.value)
    ensures r.None? ==> forall thumb :: !HasThumbnail(jpeg, thumb)
  {
    if |jpeg| < 2 || jpeg[..2] != [0xFF, 0xD8] {
      return None;
    }
    var at := 2;
    hide FindExif, HasThumbnail, IsThumbnail, Look;
    while at + 4 <= |jpeg|
      invariant 2 <= at <= |jpeg|
      invariant FindExif(jpeg[at..]) == FindExif(jpeg[2..])
    {
      WalkFrom(jpeg, at);
      match Look(jpeg, at) {
        case Stop =>
          NoExif(jpeg);
          return None;
        case Exif(tiff) =>
          OnlyExif(jpeg, tiff);
          r := ThumbnailIn(tiff);
          return;
        case Next(next) =>
          at := next;
      }
    }
    NoExif(jpeg);
    return None;
  }

  // ----- the files cameras write

  /** A directory entry: tag, type, count, and value or offset. */
  datatype Entry = Entry(tag: nat, kind: nat, count: nat, value: nat) {
    predicate Fits() { tag < 0x1_0000 && kind < 0x1_0000 && count < 0x1_0000_0000 && value < 0x1_0000_0000 }

    function Bytes(little: bool): (b: seq<Byte>)
      requires Fits()
      ensures |b| == 12
    {
      Write16(tag, little) + Write16(kind, little) + Write32(count, little) + Write32(value, little)
    }
  }

  predicate AllFit(entries: seq<Entry>) { forall i | 0 <= i < |entries| :: entries[i].Fits() }

  function EntryBytes(entries: seq<Entry>, little: bool): (b: seq<Byte>)
    requires AllFit(entries)
    ensures |b| == 12 * |entries|
  {
    if entries == [] then [] else EntryBytes(entries[..|entries| - 1], little) + entries[|entries| - 1].Bytes(little)
  }

  function Directory(entries: seq<Entry>, next: nat, little: bool): (b: seq<Byte>)
    requires AllFit(entries) && |entries| < 0x1_0000 && next < 0x1_0000_0000
    ensures |b| == 6 + 12 * |entries|
  {
    Write16(|entries|, little) + EntryBytes(entries, little) + Write32(next, little)
  }

  function Header(little: bool): (b: seq<Byte>)
    ensures |b| == 8
  {
    (if little then [0x49, 0x49] else [0x4D, 0x4D]) + Write16(42, little) + Write32(8, little)
  }

  /** A TIFF block with the image's directory, the thumbnail's, and the
      thumbnail, one after another. */
  function Tiff(little: bool, image: seq<Entry>, thumbnail: seq<Entry>, thumb: seq<Byte>): seq<Byte>
    requires AllFit(image) && |image| < 0x1_0000 && AllFit(thumbnail) && |thumbnail| < 0x1_0000
  {
    Header(little) + Directory(image, 14 + 12 * |image|, little) + Directory(thumbnail, 0, little) + thumb
  }

  lemma {:induction false} EntryInBlock(entries: seq<Entry>, little: bool, e: nat)
    requires AllFit(entries) && e < |entries|
    ensures At(EntryBytes(entries, little), 12 * e, entries[e].Bytes(little))
    decreases |entries|
  {
    var n := |entries| - 1;
    hide Write16, Write32;
    var front, last := EntryBytes(entries[..n], little), entries[n].Bytes(little);
    if e < n {
      EntryInBlock(entries[..n], little, e);
    }
  }

  lemma EntryReads(t: seq<Byte>, i: nat, entry: Entry, little: bool)
    requires entry.Fits() && At(t, i, entry.Bytes(little))
    ensures Read16(t, i, little) == Some(entry.tag) && Read32(t, i + 8, little) == Some(entry.value)
    ensures i + 12 <= |t|
  {
    hide Write16, Write32, Read16, Read32;
    var b := entry.Bytes(little);
    assert At(b, 0, Write16(entry.tag, little)) && At(b, 8, Write32(entry.value, little));
    AtPart(t, i, b, 0, Write16(entry.tag, little));
    AtPart(t, i, b, 8, Write32(entry.value, little));
    ReadAt16(t, i, entry.tag, little);
    ReadAt32(t, i + 8, entry.value, little);
  }

  lemma DirectoryReads(t: seq<Byte>, i: nat, entries: seq<Entry>, next: nat, little: bool)
    requires AllFit(entries) && |entries| < 0x1_0000 && next < 0x1_0000_0000
    requires At(t, i, Directory(entries, next, little))
    ensures Read16(t, i, little) == Some(|entries|)
    ensures Read32(t, EntryAt(i, |entries|), little) == Some(next)
    ensures Reads(t, little, i, entries) && EntriesReadable(t, little, i, |entries|)
  {
    hide Write16, Write32, Read16, Read32, EntryBytes;
    var d, body := Directory(entries, next, little), EntryBytes(entries, little);
    var count, link := Write16(|entries|, little), Write32(next, little);
    AtPart(t, i, d, 0, Write16(|entries|, little));
    AtPart(t, i, d, 2, body);
    AtPart(t, i, d, 2 + |body|, Write32(next, little));
    ReadAt16(t, i, |entries|, little);
    ReadAt32(t, i + 2 + |body|, next, little);
    forall e | 0 <= e < |entries|
      ensures Read16(t, EntryAt(i, e), little) == Some(entries[e].tag)
      ensures Read32(t, EntryAt(i, e) + 8, little) == Some(entries[e].value)
      ensures EntryAt(i, e) + 12 <= |t|
    {
      EntryInBlock(entries, little, e);
      AtPart(t, i + 2, body, 12 * e, entries[e].Bytes(little));
      EntryReads(t, EntryAt(i, e), entries[e], little);
    }
  }

  /** The entries' pointers are at `x` and `y`, and say where a thumbnail of
      `length` bytes, at `offset`, is. */
  predicate PointsAt(entries: seq<Entry>, x: nat, y: nat, offset: nat, length: nat) {
    && x < |entries| && y < |entries|
    && entries[x].tag == JPEG_INTERCHANGE_FORMAT && entries[x].value == offset
    && entries[y].tag == JPEG_INTERCHANGE_FORMAT_LENGTH && entries[y].value == length
    && forall e | 0 <= e < |entries| :: IsPointer(entries[e].tag) ==> e == x || e == y
  }

  /** The directory at `ifd` reads back as `entries`. */
  ghost predicate Reads(t: seq<Byte>, little: bool, ifd: nat, entries: seq<Entry>) {
    forall e | 0 <= e < |entries| ::
      && Read16(t, EntryAt(ifd, e), little) == Some(entries[e].tag)
      && Read32(t, EntryAt(ifd, e) + 8, little) == Some(entries[e].value)
  }

  /** In either byte order, whatever else the directories say, the thumbnail the
      second directory names is the one read. */
  lemma TiffHasThumbnail(little: bool, image: seq<Entry>, thumbnail: seq<Entry>, thumb: seq<Byte>, x: nat, y: nat)
    requires AllFit(image) && |image| < 0x1_0000 && AllFit(thumbnail) && |thumbnail| < 0x1_0000
    requires PointsAt(thumbnail, x, y, 20 + 12 * |image| + 12 * |thumbnail|, |thumb|)
    requires [0xFF, 0xD8] <= thumb
    ensures IsThumbnail(Tiff(little, image, thumbnail, thumb), thumb)
  {
    hide Tiff, Header, Directory, Ifd1, Read16, EntriesReadable, Reads, At, PointsAt, IsThumbnail, AllFit;
    TiffReads(little, image, thumbnail, thumb);
    PointedThumbnail(Tiff(little, image, thumbnail, thumb), little, 14 + 12 * |image|, thumbnail,
                     20 + 12 * |image| + 12 * |thumbnail|, thumb, x, y);
  }

  lemma PointedThumbnail(t: seq<Byte>, little: bool, ifd: nat, entries: seq<Entry>, offset: nat, thumb: seq<Byte>,
                         x: nat, y: nat)
    requires Ifd1(t) == Some((little, ifd)) && Read16(t, ifd, little) == Some(|entries|)
    requires EntriesReadable(t, little, ifd, |entries|) && Reads(t, little, ifd, entries)
    requires PointsAt(entries, x, y, offset, |thumb|) && At(t, offset, thumb) && [0xFF, 0xD8] <= thumb
    ensures IsThumbnail(t, thumb)
  {
    hide Ifd1, Read16, EntriesReadable, Reads, At;
    TheOneEntry(t, little, ifd, entries, JPEG_INTERCHANGE_FORMAT, x);
    TheOneEntry(t, little, ifd, entries, JPEG_INTERCHANGE_FORMAT_LENGTH, y);
    NamedThumbnail(t, little, ifd, |entries|, offset, |thumb|, thumb);
  }

  lemma TheOneEntry(t: seq<Byte>, little: bool, ifd: nat, entries: seq<Entry>, tag: nat, x: nat)
    requires Reads(t, little, ifd, entries) && x < |entries| && entries[x].tag == tag
    requires forall e | x < e < |entries| :: entries[e].tag != tag
    ensures Gives(t, little, ifd, |entries|, tag, entries[x].value)
  {
    hide Read16, Read32;
    assert Read16(t, EntryAt(ifd, x), little) == Some(tag);
  }

  lemma NamedThumbnail(t: seq<Byte>, little: bool, ifd: nat, n: nat, offset: nat, length: nat, thumb: seq<Byte>)
    requires Ifd1(t) == Some((little, ifd)) && Read16(t, ifd, little) == Some(n) && EntriesReadable(t, little, ifd, n)
    requires Gives(t, little, ifd, n, JPEG_INTERCHANGE_FORMAT, offset)
    requires Gives(t, little, ifd, n, JPEG_INTERCHANGE_FORMAT_LENGTH, length)
    requires At(t, offset, thumb) && |thumb| == length && [0xFF, 0xD8] <= thumb
    ensures IsThumbnail(t, thumb)
  {
    hide Ifd1, Read16, EntriesReadable, Gives;
  }

  lemma TiffReads(little: bool, image: seq<Entry>, thumbnail: seq<Entry>, thumb: seq<Byte>)
    requires AllFit(image) && |image| < 0x1_0000 && AllFit(thumbnail) && |thumbnail| < 0x1_0000
    ensures var t, ifd1 := Tiff(little, image, thumbnail, thumb), 14 + 12 * |image|;
            && Ifd1(t) == Some((little, ifd1)) && Read16(t, ifd1, little) == Some(|thumbnail|)
            && EntriesReadable(t, little, ifd1, |thumbnail|)
            && Reads(t, little, ifd1, thumbnail)
            && At(t, 20 + 12 * |image| + 12 * |thumbnail|, thumb)
            && |t| == 20 + 12 * |image| + 12 * |thumbnail| + |thumb|
  {
    var t, ifd1 := Tiff(little, image, thumbnail, thumb), 14 + 12 * |image|;
    TiffLayout(little, image, thumbnail, thumb);
    hide Tiff, Header, At, Directory, Read16, Read32;
    HeaderReads(t, little);
    DirectoryReads(t, 8, image, ifd1, little);
    DirectoryReads(t, ifd1, thumbnail, 0, little);
  }

  lemma TiffLayout(little: bool, image: seq<Entry>, thumbnail: seq<Entry>, thumb: seq<Byte>)
    requires AllFit(image) && |image| < 0x1_0000 && AllFit(thumbnail) && |thumbnail| < 0x1_0000
    ensures var t, ifd1 := Tiff(little, image, thumbnail, thumb), 14 + 12 * |image|;
            && At(t, 0, Header(little)) && At(t, 8, Directory(image, ifd1, little))
            && At(t, ifd1, Directory(thumbnail, 0, little))
            && At(t, 20 + 12 * |image| + 12 * |thumbnail|, thumb)
            && |t| == 20 + 12 * |image| + 12 * |thumbnail| + |thumb|
  {
    hide Directory, Header;
  }

  lemma HeaderReads(t: seq<Byte>, little: bool)
    requires At(t, 0, Header(little))
    ensures |t| >= 8 && t[..2] == (if little then [0x49, 0x49] else [0x4D, 0x4D])
    ensures Read32(t, 4, little) == Some(8)
  {
    var h := Header(little);
    assert At(h, 4, Write32(8, little));
    AtPart(t, 0, h, 4, Write32(8, little));
    ReadAt32(t, 4, 8, little);
    assert t[..2] == t[0..8][..2];
  }

  /** So for every such file -- any run of other segments, then an EXIF block in
      either byte order, then anything -- the thumbnail is the one put in. */
  lemma CameraJpegHasThumbnail(segments: seq<Segment>, after: seq<Byte>, little: bool, image: seq<Entry>,
                               thumbnail: seq<Entry>, thumb: seq<Byte>, x: nat, y: nat)
    requires AllPassed(segments)
    requires AllFit(image) && |image| < 0x1_0000 && AllFit(thumbnail) && |thumbnail| < 0x1_0000
    requires PointsAt(thumbnail, x, y, 20 + 12 * |image| + 12 * |thumbnail|, |thumb|)
    requires [0xFF, 0xD8] <= thumb
    requires Segment(0xE1, EXIF + Tiff(little, image, thumbnail, thumb)).Fits()
    ensures var exif := Segment(0xE1, EXIF + Tiff(little, image, thumbnail, thumb));
            HasThumbnail(SOI + (SegmentBytes(segments) + exif.Bytes() + after), thumb)
  {
    TiffHasThumbnail(little, image, thumbnail, thumb, x, y);
    var tiff := Tiff(little, image, thumbnail, thumb);
    var rest := SegmentBytes(segments) + Segment(0xE1, EXIF + tiff).Bytes() + after;
    hide Tiff, IsThumbnail;
    assert ExifAfter(rest, segments, tiff, after);
    assert (SOI + rest)[2..] == rest;
  }
}
