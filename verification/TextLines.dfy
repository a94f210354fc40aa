/**
  Inspecting a text file and selecting whole lines, both in one pass over the chunks of a read stream. CR, LF and CRLF
  each end a line; a CR at the end of a chunk is undecided until the next byte is seen. The reference is defined on the
  whole file.
 */
module TextLines {
  import opened Results
  import opened Streams
  import opened Utf8

  const CR: byte := 0x0D
  const LF: byte := 0x0A

  // ---------- Whole-file reference ----------

  datatype Eol = CrLf | LoneLf | LoneCr

  function Count(b: bool): nat { if b then 1 else 0 }

  /** Some line ending of kind `eol` ends just before offset `j` of `file`. */
  predicate EolEndsAt(file: seq<byte>, j: int, eol: Eol) {
    0 < j <= |file| &&
    match eol
    case CrLf => j >= 2 && file[j - 1] == LF && file[j - 2] == CR
    case LoneLf => file[j - 1] == LF && (j == 1 || file[j - 2] != CR)
    case LoneCr => file[j - 1] == CR && (j == |file| || file[j] != LF)
  }

  predicate LineEndsAt(file: seq<byte>, j: int) {
    0 < j <= |file| && (file[j - 1] == LF || (file[j - 1] == CR && (j == |file| || file[j] != LF)))
  }

  function CountEol(file: seq<byte>, upTo: nat, eol: Eol): nat
    requires upTo <= |file|
  {
    if upTo == 0 then 0 else CountEol(file, upTo - 1, eol) + Count(EolEndsAt(file, upTo, eol))
  }

  /** Offsets just after each line ending, in order, up to `upTo`. */
  function LineEnds(file: seq<byte>, upTo: nat): seq<int>
    requires upTo <= |file|
  {
    if upTo == 0 then [] else LineEnds(file, upTo - 1) + (if LineEndsAt(file, upTo) then [upTo] else [])
  }

  function TotalLines(file: seq<byte>): nat {
    if file == [] then 0 else |LineEnds(file, |file|)| + 1
  }

  /** Offset of the first byte of line `n` (1-based). */
  function LineStart(file: seq<byte>, n: int): int
    requires 1 <= n <= |LineEnds(file, |file|)| + 1
  {
    if n == 1 then 0 else LineEnds(file, |file|)[n - 2]
  }

  datatype Range = Range(startByte: int, endByte: int)

  datatype LineError = RangeInvalid

  function SelectLines(file: seq<byte>, startLine: int, endLine: int): Result<Range, LineError> {
    if 1 <= startLine <= endLine <= TotalLines(file) then
      Ok(Range(LineStart(file, startLine),
               if endLine < TotalLines(file) then LineStart(file, endLine + 1) else |file|))
    else Err(RangeInvalid)
  }

  // ---------- The line scan ----------

  datatype LineScan = LineScan(currentLine: int, startByte: Option<int>, endByte: Option<int>, pendingCr: bool)

  /** A line ending was decided; the next line starts at `offset`. */
  function NextLine(s: LineScan, offset: int, startLine: int, endLine: int): LineScan {
    var line := s.currentLine + 1;
    LineScan(line, if line == startLine then Some(offset) else s.startByte,
             if line == endLine + 1 then Some(offset) else s.endByte, false)
  }

  /** One turn of the loop over bytes; once `endByte` is set the source leaves the loop. */
  function ScanByte(s: LineScan, b: byte, absolute: int, startLine: int, endLine: int): LineScan {
    if s.endByte.Some? then s
    else if s.pendingCr && b == LF then NextLine(s, absolute + 1, startLine, endLine)
    else
      var s1 := if s.pendingCr then NextLine(s, absolute, startLine, endLine) else s;
      if s1.endByte.Some? then s1
      else if b == CR then s1.(pendingCr := true)
      else if b == LF then NextLine(s1, absolute + 1, startLine, endLine)
      else s1
  }

  function Undecided(read: seq<byte>): nat { Count(read != [] && read[|read| - 1] == CR) }

  /** The line endings decided after the first `offset` bytes: all but a CR that is the last byte read. */
  function Decided(file: seq<byte>, offset: nat): seq<int>
    requires offset <= |file|
  {
    LineEnds(file, offset - Undecided(file[..offset]))
  }

  /** What the scan knows after `offset` bytes of `file`. */
  ghost predicate Tracks(s: LineScan, file: seq<byte>, offset: nat, startLine: int, endLine: int)
    requires offset <= |file| && 1 <= startLine <= endLine
  {
    if s.endByte.Some? then
      && endLine < TotalLines(file) && s.endByte == Some(LineStart(file, endLine + 1))
      && s.startByte == Some(LineStart(file, startLine)) && s.currentLine == endLine + 1 && !s.pendingCr
    else
      var ends := Decided(file, offset);
      && s.currentLine == |ends| + 1 && s.currentLine <= endLine
      && s.pendingCr == (Undecided(file[..offset]) == 1)
      && s.startByte == (if startLine == 1 then Some(0)
                         else if startLine <= s.currentLine then Some(ends[startLine - 2]) else None)
  }

  lemma {:induction false} LineEndsPrefix(file: seq<byte>, a: nat, b: nat)
    requires a <= b <= |file|
    ensures LineEnds(file, a) <= LineEnds(file, b)
  {
    if a < b { LineEndsPrefix(file, a, b - 1); }
  }

  lemma LineEndDecided(s: LineScan, file: seq<byte>, offset: nat, j: nat, startLine: int, endLine: int)
    requires offset < |file| && 1 <= startLine <= endLine
    requires Tracks(s, file, offset, startLine, endLine) && s.endByte.None?
    requires offset - Undecided(file[..offset]) < j <= |file| && LineEnds(file, j) == Decided(file, offset) + [j]
    ensures var s1 := NextLine(s, j, startLine, endLine);
      && s1.currentLine == |LineEnds(file, j)| + 1
      && s1.startByte == (if startLine == 1 then Some(0)
                          else if startLine <= s1.currentLine then Some(LineEnds(file, j)[startLine - 2]) else None)
      && (s1.endByte.Some? ==> endLine < TotalLines(file) && s1.endByte == Some(LineStart(file, endLine + 1))
                               && s1.startByte == Some(LineStart(file, startLine)) && s1.currentLine == endLine + 1)
      && (s1.endByte.None? ==> s1.currentLine <= endLine)
  {
    LineEndsPrefix(file, j, |file|);
  }

  lemma ScanByteTracks(s: LineScan, file: seq<byte>, offset: nat, startLine: int, endLine: int)
    requires offset < |file| && 1 <= startLine <= endLine && Tracks(s, file, offset, startLine, endLine)
    ensures Tracks(ScanByte(s, file[offset], offset, startLine, endLine), file, offset + 1, startLine, endLine)
  {
    if s.endByte.None? {
      assert file[..offset + 1][offset] == file[offset];
      if offset > 0 { assert file[..offset][offset - 1] == file[offset - 1]; }
      if s.pendingCr {
        if file[offset] == LF {
          LineEndDecided(s, file, offset, offset + 1, startLine, endLine);
        } else {
          LineEndDecided(s, file, offset, offset, startLine, endLine);
        }
      } else if file[offset] == LF {
        LineEndDecided(s, file, offset, offset + 1, startLine, endLine);
      }
    }
  }

  /** The inner loop over one chunk, left as soon as the end of the selection is known. */
  method ScanChunk(s: LineScan, chunk: seq<byte>, offset: nat, startLine: int, endLine: int, ghost file: seq<byte>)
      returns (after: LineScan)
    requires 1 <= startLine <= endLine && offset + |chunk| <= |file| && file[offset..offset + |chunk|] == chunk
    requires Tracks(s, file, offset, startLine, endLine)
    ensures Tracks(after, file, offset + |chunk|, startLine, endLine)
  {
    after := s;
    for index := 0 to |chunk|
      invariant Tracks(after, file, offset + index, startLine, endLine)
    {
      if after.endByte.Some? { return; }
      assert chunk[index] == file[offset + index];
      ScanByteTracks(after, file, offset + index, startLine, endLine);
      after := ScanByte(after, chunk[index], offset + index, startLine, endLine);
    }
  }

  /** A CR that is the last byte of the file ends a line; the tests that follow are the source's. */
  function FinishLines(s: LineScan, size: int, startLine: int, endLine: int): Result<Range, LineError> {
    var s1 := if s.pendingCr && s.endByte.None? then NextLine(s, size, startLine, endLine) else s;
    if s1.startByte.None? || s1.startByte.value > size then Err(RangeInvalid)
    else if endLine > s1.currentLine then Err(RangeInvalid)
    else Ok(Range(s1.startByte.value, if s1.endByte.Some? then s1.endByte.value else size))
  }

  lemma FinishIsSelect(s: LineScan, file: seq<byte>, startLine: int, endLine: int)
    requires file != [] && 1 <= startLine <= endLine && Tracks(s, file, |file|, startLine, endLine)
    ensures FinishLines(s, |file|, startLine, endLine) == SelectLines(file, startLine, endLine)
  {
    LineEndsBounds(file, |file|);
    assert file[..|file|] == file;
  }

  lemma {:induction false} LineEndsBounds(file: seq<byte>, upTo: nat)
    requires upTo <= |file|
    ensures forall k :: 0 <= k < |LineEnds(file, upTo)| ==> LineEndsAt(file, LineEnds(file, upTo)[k])
    ensures forall k :: 0 <= k < |LineEnds(file, upTo)| ==> 0 < LineEnds(file, upTo)[k] <= upTo
    ensures forall k, l :: 0 <= k < l < |LineEnds(file, upTo)| ==> LineEnds(file, upTo)[k] < LineEnds(file, upTo)[l]
  {
    if upTo > 0 { LineEndsBounds(file, upTo - 1); }
  }

  /** The streamed selection is the whole-file one for every cut of the file into chunks. */
  method ResolveLineRange(chunks: seq<seq<byte>>, startLine: int, endLine: int) returns (r: Result<Range, LineError>)
    ensures r == SelectLines(Flatten(chunks), startLine, endLine)
  {
    ghost var file := Flatten(chunks);
    var size := Size(chunks);
    if startLine < 1 || endLine < startLine || size == 0 { return Err(RangeInvalid); }
    var s := LineScan(1, if startLine == 1 then Some(0) else None, None, false);
    var offset: nat := 0;
    for k := 0 to |chunks|
      invariant offset == |Read(chunks, k)| <= |file|
      invariant Tracks(s, file, offset, startLine, endLine)
    {
      ReadWithin(chunks, k);
      s := ScanChunk(s, chunks[k], offset, startLine, endLine, file);
      offset := offset + |chunks[k]|;
    }
    FinishIsSelect(s, file, startLine, endLine);
    return FinishLines(s, size, startLine, endLine);
  }

  /** The size the file system reports. */
  function Size(chunks: seq<seq<byte>>): (n: nat)
    ensures n == |Flatten(chunks)|
  {
    |Flatten(chunks)|
  }

  /** Accepted line selections of a valid file cut it between characters. */
  lemma LineRangeOnBoundaries(file: seq<byte>, startLine: int, endLine: int)
    requires Valid(file) && SelectLines(file, startLine, endLine).Ok?
    ensures var range := SelectLines(file, startLine, endLine).value;
      0 <= range.startByte <= range.endByte <= |file| && Boundary(file, range.startByte) && Boundary(file, range.endByte)
  {
    LineEndsBounds(file, |file|);
    var ends := LineEnds(file, |file|);
    forall k | 0 <= k < |ends| ensures Boundary(file, ends[k]) {
      assert LineEndsAt(file, ends[k]);
      AfterAscii(file, ends[k]);
    }
  }

  // ---------- Inspection ----------

  datatype Inspection =
    Inspection(decoder: Decoder, crlf: nat, lf: nat, cr: nat, lineBreaks: nat, pendingCr: bool, first: seq<byte>)

  const MARK: seq<byte> := [0xEF, 0xBB, 0xBF]

  const UNTOUCHED: Inspection := Inspection(START, 0, 0, 0, 0, false, [])

  function InspectByte(s: Inspection, b: byte): Inspection {
    var d := Feed(s.decoder, b);
    if s.pendingCr && b == LF then Inspection(d, s.crlf + 1, s.lf, s.cr, s.lineBreaks + 1, false, s.first)
    else
      var cr := s.cr + Count(s.pendingCr);
      var breaks := s.lineBreaks + Count(s.pendingCr);
      if b == CR then Inspection(d, s.crlf, s.lf, cr, breaks, true, s.first)
      else if b == LF then Inspection(d, s.crlf, s.lf + 1, cr, breaks + 1, false, s.first)
      else Inspection(d, s.crlf, s.lf, cr, breaks, false, s.first)
  }

  ghost predicate Inspected(s: Inspection, file: seq<byte>, offset: nat)
    requires offset <= |file|
  {
    s.decoder == FeedAll(START, file[..offset]) && Counted(s, file, offset)
  }

  ghost predicate Counted(s: Inspection, file: seq<byte>, offset: nat)
    requires offset <= |file|
  {
    var pending := CrAt(file, offset - 1);
    var decided := offset - Count(pending);
    && s.pendingCr == pending
    && s.crlf == CountEol(file, decided, CrLf) && s.lf == CountEol(file, decided, LoneLf)
    && s.cr == CountEol(file, decided, LoneCr) && s.lineBreaks == |LineEnds(file, decided)|
  }

  predicate CrAt(file: seq<byte>, i: int) { 0 <= i < |file| && file[i] == CR }

  /** Which endings become decided when the byte at `offset` is seen. */
  lemma DecidedByByte(file: seq<byte>, offset: nat, eol: Eol)
    requires offset < |file|
    ensures var pending, b := CrAt(file, offset - 1), file[offset];
      CountEol(file, offset + 1 - Count(CrAt(file, offset)), eol)
      == CountEol(file, offset - Count(pending), eol)
         + Count(match eol case CrLf => pending && b == LF
                           case LoneLf => !pending && b == LF
                           case LoneCr => pending && b != LF)
  {
  }

  lemma LinesDecidedByByte(file: seq<byte>, offset: nat)
    requires offset < |file|
    ensures var pending, b := CrAt(file, offset - 1), file[offset];
      |LineEnds(file, offset + 1 - Count(CrAt(file, offset)))|
      == |LineEnds(file, offset - Count(pending))| + Count(pending && b != LF) + Count(b == LF)
  {
  }

  lemma CountedByte(s: Inspection, file: seq<byte>, offset: nat)
    requires offset < |file| && Counted(s, file, offset)
    ensures Counted(InspectByte(s, file[offset]), file, offset + 1)
  {
    DecidedByByte(file, offset, CrLf);
    DecidedByByte(file, offset, LoneLf);
    DecidedByByte(file, offset, LoneCr);
    LinesDecidedByByte(file, offset);
  }

  lemma InspectByteTracks(s: Inspection, file: seq<byte>, offset: nat)
    requires offset < |file| && Inspected(s, file, offset)
    ensures Inspected(InspectByte(s, file[offset]), file, offset + 1)
  {
    CountedByte(s, file, offset);
    var read := file[..offset];
    assert file[..offset + 1] == read + [file[offset]];
    FeedConcat(START, read, [file[offset]]);
    assert FeedAll(FeedAll(START, read), [file[offset]]) == Feed(FeedAll(START, read), file[offset]);
  }

  /** The first three bytes, or fewer when no more have been read. */
  function FirstSize(offset: nat): nat { if offset < 3 then offset else 3 }

  function FirstBytes(first: seq<byte>, chunk: seq<byte>): seq<byte> {
    if |first| >= 3 then first else first + chunk[..if 3 - |first| < |chunk| then 3 - |first| else |chunk|]
  }

  lemma FirstBytesRead(file: seq<byte>, offset: nat, chunk: seq<byte>)
    requires offset + |chunk| <= |file| && file[offset..offset + |chunk|] == chunk
    ensures FirstBytes(file[..FirstSize(offset)], chunk) == file[..FirstSize(offset + |chunk|)]
  {
    assert file[..offset + |chunk|] == file[..offset] + chunk;
  }

  method InspectChunk(s: Inspection, chunk: seq<byte>, ghost file: seq<byte>, ghost offset: nat)
      returns (after: Inspection)
    requires offset + |chunk| <= |file| && file[offset..offset + |chunk|] == chunk && Inspected(s, file, offset)
    requires s.first == file[..FirstSize(offset)]
    ensures Inspected(after, file, offset + |chunk|) && after.first == file[..FirstSize(offset + |chunk|)]
  {
    after := s.(first := FirstBytes(s.first, chunk));
    FirstBytesRead(file, offset, chunk);
    hide Counted, FeedAll, FirstBytes, FirstSize, InspectByte;
    for index := 0 to |chunk|
      invariant Inspected(after, file, offset + index) && after.first == file[..FirstSize(offset + |chunk|)]
    {
      assert chunk[index] == file[offset + index];
      InspectByteTracks(after, file, offset + index);
      after := InspectByte(after, chunk[index]);
    }
  }

  datatype FileInfo = FileInfo(bytes: nat, hasUtf8Bom: bool, dominantEol: Eol, totalLines: nat)

  datatype InspectError = SizeLimit | InvalidUtf8

  /** CRLF wins ties, then LF; a file with no line ending counts as LF. */
  function Dominant(crlf: nat, lf: nat, cr: nat): Eol {
    if crlf >= lf && crlf >= cr && crlf > 0 then CrLf
    else if lf >= cr && lf > 0 then LoneLf
    else if cr > 0 then LoneCr
    else LoneLf
  }

  /** The whole-file answer. */
  function Inspect(file: seq<byte>, maxFileBytes: nat): Result<FileInfo, InspectError> {
    var n := |file|;
    if n > maxFileBytes then Err(SizeLimit)
    else if !Valid(file) then Err(InvalidUtf8)
    else Ok(FileInfo(n, MARK <= file, Dominant(CountEol(file, n, CrLf), CountEol(file, n, LoneLf), CountEol(file, n, LoneCr)),
                     TotalLines(file)))
  }

  function FinishInspection(s: Inspection, size: nat): Result<FileInfo, InspectError> {
    var cr := s.cr + Count(s.pendingCr);
    var breaks := s.lineBreaks + Count(s.pendingCr);
    if s.decoder != START then Err(InvalidUtf8)
    else Ok(FileInfo(size, s.first == MARK, Dominant(s.crlf, s.lf, cr), if size == 0 then 0 else breaks + 1))
  }

  lemma FinishIsInspect(s: Inspection, file: seq<byte>, maxFileBytes: nat)
    requires |file| <= maxFileBytes && Inspected(s, file, |file|) && s.first == file[..FirstSize(|file|)]
    ensures FinishInspection(s, |file|) == Inspect(file, maxFileBytes)
  {
    hide Valid, FeedAll;
    assert file[..|file|] == file;
    DecoderAcceptsExactlyValid(file);
    FirstIsMark(file);
  }

  lemma FirstIsMark(file: seq<byte>)
    ensures file[..FirstSize(|file|)] == MARK <==> MARK <= file
  {
  }

  /** What is reported depends on the bytes of the file only, never on how the stream cut them. */
  method InspectTextFile(chunks: seq<seq<byte>>, maxFileBytes: nat) returns (r: Result<FileInfo, InspectError>)
    ensures r == Inspect(Flatten(chunks), maxFileBytes)
  {
    ghost var file := Flatten(chunks);
    var size := Size(chunks);
    if size > maxFileBytes { return Err(SizeLimit); }
    var s := UNTOUCHED;
    ghost var offset := 0;
    for k := 0 to |chunks|
      invariant offset == |Read(chunks, k)| <= |file| && Inspected(s, file, offset) && s.first == file[..FirstSize(offset)]
    {
      ReadWithin(chunks, k);
      s := InspectChunk(s, chunks[k], file, offset);
      offset := offset + |chunks[k]|;
    }
    FinishIsInspect(s, file, maxFileBytes);
    return FinishInspection(s, size);
  }
}
