/**
  The selectors of a text file: byte ranges, whole lines, an anchor text, the end of the file, and a section range that
  the Markdown resolver found. Every accepted selection of a valid file is made of whole characters.
 */
module Selectors {
  import opened Results
  import opened Streams
  import opened Utf8
  import opened TextLines
  import AnchorSearch

  /** `expected` is the content a caller's expected hash stands for; hashes are compared by content. */
  datatype Selector =
    | Bytes(start: int, end: int, expected: Option<seq<byte>>)
    | Lines(startLine: int, endLine: int, expected: Option<seq<byte>>)
    | Anchor(text: seq<byte>, occurrence: int, expectedMatches: int, includeAnchor: bool, expected: Option<seq<byte>>)
    | Eof(expected: Option<seq<byte>>)
    | Section(resolved: Option<Range>, expected: Option<seq<byte>>)

  datatype SelectorError =
    OutOfRange | SplitsCodePoint | AnchorRefused(reason: AnchorSearch.AnchorError) | MarkdownInvalid | HashMismatch

  /** The boundary check of the source: outside the file, inside a character, or accepted. */
  function CheckBoundary(file: seq<byte>, offset: int): (r: Result<(), SelectorError>)
    ensures r.Ok? <==> Boundary(file, offset)
  {
    if offset < 0 || offset > |file| then Err(OutOfRange)
    else if offset == 0 || offset == |file| then Ok(())
    else if IsTail(file[offset]) then Err(SplitsCodePoint)
    else Ok(())
  }

  function CheckBoth(file: seq<byte>, start: int, end: int): Result<Range, SelectorError> {
    if CheckBoundary(file, start).Err? then Err(CheckBoundary(file, start).error)
    else if CheckBoundary(file, end).Err? then Err(CheckBoundary(file, end).error)
    else Ok(Range(start, end))
  }

  function AnchorRange(r: Result<AnchorSearch.Range, AnchorSearch.AnchorError>): Result<Range, SelectorError> {
    match r
    case Ok(range) => Ok(Range(range.startByte, range.endByte))
    case Err(e) => Err(AnchorRefused(e))
  }

  function ResolveRange(chunks: seq<seq<byte>>, s: Selector): Result<Range, SelectorError> {
    var file := Flatten(chunks);
    match s
    case Bytes(start, end, _) =>
      if end < start || end > |file| then Err(OutOfRange) else CheckBoth(file, start, end)
    case Lines(startLine, endLine, _) =>
      var r := SelectLines(file, startLine, endLine);
      if r.Ok? then Ok(r.value) else Err(OutOfRange)
    case Anchor(text, occurrence, expectedMatches, includeAnchor, _) =>
      if text == [] then Err(AnchorRefused(AnchorSearch.AnchorInvalid))
      else AnchorRange(AnchorSearch.Select(AnchorSearch.StreamMatches(chunks, text), |text|, occurrence, expectedMatches,
                                           includeAnchor))
    case Eof(_) => Ok(Range(|file|, |file|))
    case Section(resolved, _) =>
      if resolved.None? then Err(MarkdownInvalid)
      else CheckBoth(file, resolved.value.startByte, resolved.value.endByte)
  }

  function Slice(file: seq<byte>, r: Range): seq<byte> {
    if 0 <= r.startByte <= r.endByte <= |file| then file[r.startByte..r.endByte] else []
  }

  function Resolve(chunks: seq<seq<byte>>, s: Selector): Result<Range, SelectorError> {
    var r := ResolveRange(chunks, s);
    if r.Ok? && s.expected.Some? && s.expected.value != Slice(Flatten(chunks), r.value) then Err(HashMismatch) else r
  }

  method ResolveSelector(chunks: seq<seq<byte>>, s: Selector) returns (r: Result<Range, SelectorError>)
    ensures r == Resolve(chunks, s)
  {
    var file := Flatten(chunks);
    match s {
      case Bytes(start, end, _) =>
        r := if end < start || end > |file| then Err(OutOfRange) else CheckBoth(file, start, end);
      case Lines(startLine, endLine, _) =>
        var lines := ResolveLineRange(chunks, startLine, endLine);
        r := if lines.Ok? then Ok(lines.value) else Err(OutOfRange);
      case Anchor(text, occurrence, expectedMatches, includeAnchor, _) =>
        var anchor := AnchorSearch.ResolveAnchor(chunks, text, occurrence, expectedMatches, includeAnchor);
        r := AnchorRange(anchor);
      case Eof(_) =>
        r := Ok(Range(|file|, |file|));
      case Section(resolved, _) =>
        r := if resolved.None? then Err(MarkdownInvalid)
             else CheckBoth(file, resolved.value.startByte, resolved.value.endByte);
    }
    if r.Ok? && s.expected.Some? && s.expected.value != Slice(file, r.value) { r := Err(HashMismatch); }
  }

  /** A range of whole characters inside the file. */
  predicate Aligned(file: seq<byte>, r: Range) {
    r.startByte <= r.endByte && Boundary(file, r.startByte) && Boundary(file, r.endByte)
  }

  lemma HitsAt(chunks: seq<seq<byte>>, text: seq<byte>)
    requires text != []
    ensures AllHits(AnchorSearch.StreamMatches(chunks, text), Flatten(chunks), text)
  {
    AnchorSearch.StreamSound(chunks, |chunks|, text);
  }

  ghost predicate AllHits(positions: seq<int>, file: seq<byte>, text: seq<byte>) {
    forall k :: 0 <= k < |positions| ==> AnchorSearch.OccursAt(file, text, positions[k])
  }

  lemma HitAligned(file: seq<byte>, text: seq<byte>, i: int)
    requires Valid(file) && Valid(text) && text != [] && AnchorSearch.OccursAt(file, text, i)
    ensures 0 <= i && i + |text| <= |file| && file[i..i + |text|] == text
    ensures Boundary(file, i) && Boundary(file, i + |text|)
  {
    HitOnBoundaries(file, text, i);
  }

  lemma SelectedHitAligned(file: seq<byte>, positions: seq<int>, text: seq<byte>, occurrence: int, expected: int,
                           includeAnchor: bool)
    requires Valid(file) && Valid(text) && AllHits(positions, file, text)
    requires AnchorSearch.Select(positions, |text|, occurrence, expected, includeAnchor).Ok?
    ensures var r := AnchorRange(AnchorSearch.Select(positions, |text|, occurrence, expected, includeAnchor)).value;
      Aligned(file, r) && (includeAnchor ==> Slice(file, r) == text)
  {
    hide Valid, Boundary;
    HitAligned(file, text, positions[occurrence - 1]);
  }

  lemma AnchorSelectionAligned(chunks: seq<seq<byte>>, s: Selector)
    requires s.Anchor? && Valid(Flatten(chunks)) && Valid(s.text) && ResolveRange(chunks, s).Ok?
    ensures Aligned(Flatten(chunks), ResolveRange(chunks, s).value)
    ensures s.includeAnchor ==> Slice(Flatten(chunks), ResolveRange(chunks, s).value) == s.text
  {
    HitsAt(chunks, s.text);
    SelectedHitAligned(Flatten(chunks), AnchorSearch.StreamMatches(chunks, s.text), s.text, s.occurrence,
      s.expectedMatches, s.includeAnchor);
  }

  /**
    UTF-8 closure of selection: in a valid file, every accepted selector of any kind (an anchor text being valid
    UTF-8; a section resolver answering start <= end) selects whole characters, so the selected slice is valid.
   */
  lemma AcceptedSelectionAligned(chunks: seq<seq<byte>>, s: Selector)
    requires Valid(Flatten(chunks)) && Resolve(chunks, s).Ok?
    requires s.Anchor? ==> Valid(s.text)
    requires s.Section? && s.resolved.Some? ==> s.resolved.value.startByte <= s.resolved.value.endByte
    ensures Aligned(Flatten(chunks), Resolve(chunks, s).value)
    ensures s.Anchor? && s.includeAnchor ==> Slice(Flatten(chunks), Resolve(chunks, s).value) == s.text
    ensures Valid(Slice(Flatten(chunks), Resolve(chunks, s).value))
  {
    if s.Anchor? {
      AnchorSelectionAligned(chunks, s);
    } else if s.Lines? {
      LineRangeOnBoundaries(Flatten(chunks), s.startLine, s.endLine);
    }
    AlignedSliceValid(Flatten(chunks), Resolve(chunks, s).value);
  }

  lemma AlignedSliceValid(file: seq<byte>, r: Range)
    requires Valid(file)
    ensures Aligned(file, r) ==> Valid(Slice(file, r))
  {
    if Aligned(file, r) { SliceValid(file, r.startByte, r.endByte); }
  }
}
