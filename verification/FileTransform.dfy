/**
  The multi-operation transform: every operation's range is resolved against the original file, the ranges are sorted
  and checked, and the result is written in one pass from left to right. A preview and a commit are tied together by
  a receipt; the commit goes through a temporary file that replaces the target only if nothing changed meanwhile.
 */
module FileTransform {
  import opened Results
  import opened Utf8
  import opened LineEndings
  import opened Streams
  import TextLines

  type bytes = seq<byte>

  datatype Kind = Replace | Delete | InsertBefore | InsertAfter | Append

  /** An operation whose selector has been resolved: the bytes [start, end) become `content`. */
  datatype Edit = Edit(kind: Kind, start: int, end: int, content: bytes)

  /** From the selected range to the edited range. */
  function OperationRange(kind: Kind, selStart: int, selEnd: int, size: int): (int, int) {
    match kind
    case Replace => (selStart, selEnd)
    case Delete => (selStart, selEnd)
    case InsertBefore => (selStart, selStart)
    case InsertAfter => (selEnd, selEnd)
    case Append => (size, size)
  }

  predicate InFile(e: Edit, file: bytes) { 0 <= e.start <= e.end <= |file| }

  predicate AllInFile(edits: seq<Edit>, file: bytes) { forall k :: 0 <= k < |edits| ==> InFile(edits[k], file) }

  // ---------- Sorting and the overlap check ----------

  function Insert(e: Edit, sorted: seq<Edit>): seq<Edit> {
    if sorted == [] || e.start <= sorted[0].start then [e] + sorted else [sorted[0]] + Insert(e, sorted[1..])
  }

  /** Sorting by start; listing order decides between equal starts, as the ordinal does in the source. */
  function Sort(edits: seq<Edit>): (sorted: seq<Edit>) {
    if edits == [] then [] else Insert(edits[0], Sort(edits[1..]))
  }

  /** The test the source applies to neighbours: an overlap, or a shared ambiguous insertion point. */
  predicate Clash(previous: Edit, current: Edit) {
    || current.start < previous.end
    || (current.start == previous.start && (current.start == current.end || previous.start == previous.end))
  }

  /** The loop of the overlap check over the sorted operations. */
  method AssertNonOverlapping(sorted: seq<Edit>) returns (ok: bool)
    ensures ok <==> NeighboursClear(sorted)
  {
    var index := 1;
    while index < |sorted|
      invariant 1 <= index
      invariant forall k :: 0 < k < index && k < |sorted| ==> !Clash(sorted[k - 1], sorted[k])
    {
      if Clash(sorted[index - 1], sorted[index]) { return false; }
      index := index + 1;
    }
    return true;
  }

  predicate NeighboursClear(sorted: seq<Edit>) {
    forall k :: 0 < k < |sorted| ==> !Clash(sorted[k - 1], sorted[k])
  }

  predicate SortedByStart(s: seq<Edit>) { forall i, j :: 0 <= i < j < |s| ==> s[i].start <= s[j].start }

  predicate StrictlyOrdered(s: seq<Edit>) {
    forall i, j :: 0 <= i < j < |s| ==> s[i].start < s[j].start && s[i].end <= s[j].start
  }

  lemma {:induction false} InsertSorts(e: Edit, sorted: seq<Edit>)
    requires SortedByStart(sorted)
    ensures SortedByStart(Insert(e, sorted))
  {
    if sorted != [] && e.start > sorted[0].start {
      InsertSorts(e, sorted[1..]);
      InsertKeeps(e, sorted[1..]);
      var rest := Insert(e, sorted[1..]);
      forall j | 0 <= j < |rest| ensures sorted[0].start <= rest[j].start {
        assert rest[j] in multiset(rest);
      }
    }
  }

  lemma {:induction false} InsertKeeps(e: Edit, sorted: seq<Edit>)
    ensures multiset(Insert(e, sorted)) == multiset{e} + multiset(sorted)
  {
    if sorted != [] && e.start > sorted[0].start {
      InsertKeeps(e, sorted[1..]);
      assert sorted == [sorted[0]] + sorted[1..];
    }
  }

  lemma {:induction false} SortSorts(edits: seq<Edit>)
    ensures SortedByStart(Sort(edits)) && multiset(Sort(edits)) == multiset(edits)
  {
    if edits != [] {
      SortSorts(edits[1..]);
      InsertSorts(edits[0], Sort(edits[1..]));
      InsertKeeps(edits[0], Sort(edits[1..]));
      assert edits == [edits[0]] + edits[1..];
    }
  }

  /** Checking neighbours is enough: in a sorted list of proper ranges no two operations touch ambiguously. */
  lemma {:induction false} NeighboursImplyAll(s: seq<Edit>)
    requires SortedByStart(s) && forall k :: 0 <= k < |s| ==> s[k].start <= s[k].end
    ensures NeighboursClear(s) <==> StrictlyOrdered(s)
  {
    if NeighboursClear(s) {
      forall i, j | 0 <= i < j < |s| ensures s[i].start < s[j].start && s[i].end <= s[j].start {
        assert !Clash(s[i], s[i + 1]);
        assert s[i].end <= s[i + 1].start <= s[j].start;
      }
    }
  }

  /** Two operations that may be listed together. */
  predicate Compatible(a: Edit, b: Edit) { a.start != b.start && (a.end <= b.start || b.end <= a.start) }

  ghost predicate PairwiseCompatible(edits: seq<Edit>) {
    forall i, j :: 0 <= i < j < |edits| ==> Compatible(edits[i], edits[j])
  }

  predicate Accepted(edits: seq<Edit>) { NeighboursClear(Sort(edits)) }

  lemma {:induction false} InsertPairwise(e: Edit, s: seq<Edit>)
    ensures PairwiseCompatible(Insert(e, s)) <==> PairwiseCompatible([e] + s)
    ensures forall x :: x in Insert(e, s) <==> x == e || x in s
  {
    if s != [] && e.start > s[0].start {
      var rest := Insert(e, s[1..]);
      InsertPairwise(e, s[1..]);
      assert s == [s[0]] + s[1..];
      PairwiseCons(s[0], rest);
      PairwiseCons(s[0], s[1..]);
      PairwiseCons(e, s);
      PairwiseCons(e, s[1..]);
      assert Insert(e, s) == [s[0]] + rest;
      assert forall x :: Compatible(e, x) <==> Compatible(x, e);
    }
  }

  lemma PairwiseCons(e: Edit, s: seq<Edit>)
    ensures PairwiseCompatible([e] + s) <==> PairwiseCompatible(s) && forall x :: x in s ==> Compatible(e, x)
  {
    var t := [e] + s;
    if PairwiseCompatible(t) {
      forall i, j | 0 <= i < j < |s| ensures Compatible(s[i], s[j]) { assert Compatible(t[i + 1], t[j + 1]); }
      forall x | x in s ensures Compatible(e, x) { var k :| 0 <= k < |s| && s[k] == x; assert Compatible(t[0], t[k + 1]); }
    }
  }

  lemma {:induction false} SortPairwise(edits: seq<Edit>)
    ensures PairwiseCompatible(Sort(edits)) <==> PairwiseCompatible(edits)
  {
    if edits != [] {
      SortPairwise(edits[1..]);
      SortSorts(edits[1..]);
      InsertPairwise(edits[0], Sort(edits[1..]));
      assert edits == [edits[0]] + edits[1..];
      PairwiseCons(edits[0], edits[1..]);
      PairwiseCons(edits[0], Sort(edits[1..]));
      forall x ensures x in edits[1..] <==> x in Sort(edits[1..]) {
        assert x in multiset(edits[1..]) <==> x in multiset(Sort(edits[1..]));
      }
    }
  }

  /** The exact meaning of acceptance: whatever the order of listing, every two operations are compatible. */
  lemma AcceptedIffPairwiseCompatible(edits: seq<Edit>, file: bytes)
    requires AllInFile(edits, file)
    ensures Accepted(edits) <==> PairwiseCompatible(edits)
  {
    SortSorts(edits);
    SortInFile(edits, file);
    NeighboursImplyAll(Sort(edits));
    SortPairwise(edits);
    var s := Sort(edits);
    if PairwiseCompatible(s) {
      forall i, j | 0 <= i < j < |s| ensures s[i].start < s[j].start && s[i].end <= s[j].start {
        assert Compatible(s[i], s[j]);
      }
    }
  }

  lemma HeadsAgree(a: seq<Edit>, b: seq<Edit>)
    requires a != [] && b != [] && multiset(a) == multiset(b) && StrictlyOrdered(a) && SortedByStart(b)
    ensures a[0] == b[0]
  {
    assert a[0] in multiset(b) && b[0] in multiset(a);
  }

  lemma TailsAgree(a: seq<Edit>, b: seq<Edit>)
    requires a != [] && b != [] && multiset(a) == multiset(b) && a[0] == b[0]
    ensures multiset(a[1..]) == multiset(b[1..])
  {
    assert a == [a[0]] + a[1..] && b == [b[0]] + b[1..];
    assert multiset(a[1..]) == multiset(a) - multiset{a[0]};
  }

  /** Equal as collections and one of them strictly ordered: then equal as lists. */
  lemma {:induction false} StrictOrderUnique(a: seq<Edit>, b: seq<Edit>)
    requires multiset(a) == multiset(b) && StrictlyOrdered(a) && SortedByStart(b)
    ensures a == b
  {
    assert |a| == |multiset(a)| == |multiset(b)| == |b|;
    if a != [] {
      HeadsAgree(a, b);
      TailsAgree(a, b);
      StrictOrderUnique(a[1..], b[1..]);
      assert a == [a[0]] + a[1..] && b == [b[0]] + b[1..];
    }
  }

  /** Neither acceptance nor the sorted list, hence nothing that is written, depends on the listing order. */
  lemma ListingOrderIrrelevant(a: seq<Edit>, b: seq<Edit>, file: bytes)
    requires multiset(a) == multiset(b) && AllInFile(a, file) && AllInFile(b, file)
    ensures Accepted(a) <==> Accepted(b)
    ensures Accepted(a) ==> Sort(a) == Sort(b)
  {
    SortSorts(a);
    SortSorts(b);
    SortInFile(a, file);
    SortInFile(b, file);
    NeighboursImplyAll(Sort(a));
    NeighboursImplyAll(Sort(b));
    if Accepted(a) { StrictOrderUnique(Sort(a), Sort(b)); }
    if Accepted(b) { StrictOrderUnique(Sort(b), Sort(a)); }
  }

  lemma SortInFile(edits: seq<Edit>, file: bytes)
    requires AllInFile(edits, file)
    ensures AllInFile(Sort(edits), file)
  {
    SortSorts(edits);
    forall k | 0 <= k < |Sort(edits)| ensures InFile(Sort(edits)[k], file) {
      assert Sort(edits)[k] in multiset(edits);
    }
  }

  // ---------- Writing the result ----------

  /** What the one-pass writer puts after `cursor`, given sorted, non-overlapping operations. */
  function Splice(file: bytes, sorted: seq<Edit>, cursor: int): bytes
    requires 0 <= cursor <= |file| && AllInFile(sorted, file) && StrictlyOrdered(sorted)
    requires sorted != [] ==> cursor <= sorted[0].start
  {
    if sorted == [] then file[cursor..]
    else file[cursor..sorted[0].start] + sorted[0].content + Splice(file, sorted[1..], sorted[0].end)
  }

  /** One turn of the writer's loop moves one operation from what is left to what is written. */
  lemma SpliceStep(file: bytes, sorted: seq<Edit>, i: nat, cursor: int, output: bytes)
    requires AllInFile(sorted, file) && StrictlyOrdered(sorted) && i < |sorted| && 0 <= cursor <= sorted[i].start
    ensures output + Splice(file, sorted[i..], cursor)
         == output + file[cursor..sorted[i].start] + sorted[i].content + Splice(file, sorted[i + 1..], sorted[i].end)
  {
    assert sorted[i..][0] == sorted[i] && sorted[i..][1..] == sorted[i + 1..];
    var gap, content, rest := file[cursor..sorted[i].start], sorted[i].content, Splice(file, sorted[i + 1..], sorted[i].end);
    assert Splice(file, sorted[i..], cursor) == gap + content + rest;
    Assoc(gap, content, rest);
    Assoc(output, gap, content + rest);
    Assoc(output + gap, content, rest);
  }

  /** The writer's loop. */
  method WriteContent(file: bytes, sorted: seq<Edit>) returns (output: bytes)
    requires AllInFile(sorted, file) && StrictlyOrdered(sorted)
    ensures output == Splice(file, sorted, 0)
  {
    output := [];
    var cursor := 0;
    for i := 0 to |sorted|
      invariant 0 <= cursor <= |file| && (i < |sorted| ==> cursor <= sorted[i].start)
      invariant output + Splice(file, sorted[i..], cursor) == Splice(file, sorted, 0)
    {
      SpliceStep(file, sorted, i, cursor, output);
      output := output + file[cursor..sorted[i].start] + sorted[i].content;
      cursor := sorted[i].end;
    }
    output := output + file[cursor..];
  }

  function ApplyOne(file: bytes, e: Edit): bytes
    requires InFile(e, file)
  {
    file[..e.start] + e.content + file[e.end..]
  }

  /** The independent reading: single edits applied one after the other, rightmost first. */
  function ApplyRightToLeft(file: bytes, sorted: seq<Edit>): (r: bytes)
    requires AllInFile(sorted, file) && StrictlyOrdered(sorted)
    ensures sorted != [] ==> sorted[0].start <= |r| && r[..sorted[0].start] == file[..sorted[0].start]
    ensures sorted == [] ==> r == file
  {
    if sorted == [] then file
    else
      var rest := ApplyRightToLeft(file, sorted[1..]);
      assert sorted[0].end <= |rest| && rest[..sorted[0].end] == file[..sorted[0].end] by {
        if |sorted| > 1 {
          assert sorted[0].end <= sorted[1].start;
          assert file[..sorted[1].start][..sorted[0].end] == file[..sorted[0].end];
          assert rest[..sorted[1].start][..sorted[0].end] == rest[..sorted[0].end];
        }
      }
      assert rest[..sorted[0].start] == rest[..sorted[0].end][..sorted[0].start];
      ApplyOne(rest, sorted[0])
  }

  /** One pass from the left equals single edits from the right. */
  lemma {:induction false} SpliceIsSequential(file: bytes, sorted: seq<Edit>, cursor: int)
    requires 0 <= cursor <= |file| && AllInFile(sorted, file) && StrictlyOrdered(sorted)
    requires sorted != [] ==> cursor <= sorted[0].start
    ensures ApplyRightToLeft(file, sorted) == file[..cursor] + Splice(file, sorted, cursor)
  {
    if sorted == [] {
      assert file == file[..cursor] + file[cursor..];
    } else {
      var e := sorted[0];
      var tail := Splice(file, sorted[1..], e.end);
      SpliceIsSequential(file, sorted[1..], e.end);
      ApplyAfterPrefix(file, e, tail);
      assert file[..e.start] == file[..cursor] + file[cursor..e.start];
      assert file[..cursor] + file[cursor..e.start] + e.content + tail
          == file[..cursor] + (file[cursor..e.start] + e.content + tail);
    }
  }

  lemma ApplyAfterPrefix(file: bytes, e: Edit, tail: bytes)
    requires InFile(e, file)
    ensures ApplyOne(file[..e.end] + tail, e) == file[..e.start] + e.content + tail
  {
  }

  /** The size the preview announces. */
  function BytesAfter(size: int, sorted: seq<Edit>): int
    decreases |sorted|
  {
    if sorted == [] then size
    else BytesAfter(size - (sorted[0].end - sorted[0].start) + |sorted[0].content|, sorted[1..])
  }

  lemma {:induction false} BytesAfterShift(size: int, more: int, sorted: seq<Edit>)
    ensures BytesAfter(size + more, sorted) == BytesAfter(size, sorted) + more
    decreases |sorted|
  {
    if sorted != [] {
      BytesAfterShift(size - (sorted[0].end - sorted[0].start) + |sorted[0].content|, more, sorted[1..]);
    }
  }

  /** The announced size is the size of what is written. */
  lemma {:induction false} AnnouncedSizeExact(file: bytes, sorted: seq<Edit>, cursor: int)
    requires 0 <= cursor <= |file| && AllInFile(sorted, file) && StrictlyOrdered(sorted)
    requires sorted != [] ==> cursor <= sorted[0].start
    ensures |Splice(file, sorted, cursor)| == BytesAfter(|file|, sorted) - cursor
  {
    if sorted != [] {
      var e := sorted[0];
      AnnouncedSizeExact(file, sorted[1..], e.end);
      BytesAfterShift(|file|, |e.content| - (e.end - e.start), sorted[1..]);
    }
  }

  /** How far a byte at `i` has moved: the growth of all operations that end at or before it. */
  function Shift(sorted: seq<Edit>, i: int): int {
    if sorted == [] || i < sorted[0].end then 0
    else |sorted[0].content| - (sorted[0].end - sorted[0].start) + Shift(sorted[1..], i)
  }

  predicate Untouched(sorted: seq<Edit>, i: int) {
    forall k :: 0 <= k < |sorted| ==> !(sorted[k].start <= i < sorted[k].end)
  }

  /** A byte outside every range is still there, moved by exactly the growth in front of it. */
  lemma {:induction false} UntouchedBytePreserved(file: bytes, sorted: seq<Edit>, cursor: int, i: int)
    requires 0 <= cursor <= i < |file| && AllInFile(sorted, file) && StrictlyOrdered(sorted)
    requires sorted != [] ==> cursor <= sorted[0].start
    requires Untouched(sorted, i)
    ensures 0 <= i - cursor + Shift(sorted, i) < |Splice(file, sorted, cursor)|
    ensures Splice(file, sorted, cursor)[i - cursor + Shift(sorted, i)] == file[i]
  {
    if sorted != [] && i >= sorted[0].end {
      forall k | 0 <= k < |sorted[1..]| ensures !(sorted[1..][k].start <= i < sorted[1..][k].end) {
        assert sorted[1..][k] == sorted[k + 1];
      }
      UntouchedBytePreserved(file, sorted[1..], sorted[0].end, i);
    }
  }

  predicate EditValid(file: bytes, e: Edit) {
    Boundary(file, e.start) && Boundary(file, e.end) && Valid(e.content)
  }

  predicate EditsValid(file: bytes, edits: seq<Edit>) { forall k :: 0 <= k < |edits| ==> EditValid(file, edits[k]) }

  /** Valid file, whole-character ranges, valid contents: the result is valid. */
  lemma {:induction false} SpliceValid(file: bytes, sorted: seq<Edit>, cursor: int)
    requires 0 <= cursor <= |file| && AllInFile(sorted, file) && StrictlyOrdered(sorted)
    requires sorted != [] ==> cursor <= sorted[0].start
    requires Valid(file) && Boundary(file, cursor)
    requires EditsValid(file, sorted)
    ensures Valid(Splice(file, sorted, cursor))
  {
    if sorted == [] {
      SliceValid(file, cursor, |file|);
      assert file[cursor..|file|] == file[cursor..];
    } else {
      var e := sorted[0];
      assert forall k :: 0 <= k < |sorted[1..]| ==> sorted[1..][k] == sorted[k + 1];
      SpliceValid(file, sorted[1..], e.end);
      SliceValid(file, cursor, e.start);
      ValidConcat(file[cursor..e.start], e.content);
      ValidConcat(file[cursor..e.start] + e.content, Splice(file, sorted[1..], e.end));
    }
  }

  // ---------- Compiling a request ----------

  /** Inline or staged text is adapted to the file's line endings; a slice of another file is taken as it is. */
  datatype Content = Text(text: bytes) | FileSlice(slice: bytes)

  /** An operation with its accepted selection [selStart, selEnd). */
  datatype Operation = Operation(kind: Kind, selStart: int, selEnd: int, content: Option<Content>)

  datatype TransformError =
    SourceChanged | OperationInvalid | ContentInvalid | TextInvalid | OverlapError | SizeLimit | ReceiptInvalid | IoFailure

  function EolBytes(eol: TextLines.Eol): bytes {
    match eol case CrLf => [CR, LF] case LoneLf => [LF] case LoneCr => [CR]
  }

  function DominantEol(file: bytes): TextLines.Eol {
    TextLines.Dominant(TextLines.CountEol(file, |file|, TextLines.CrLf), TextLines.CountEol(file, |file|, TextLines.LoneLf),
                       TextLines.CountEol(file, |file|, TextLines.LoneCr))
  }

  function CompileOne(file: bytes, op: Operation): Result<Edit, TransformError> {
    var range := OperationRange(op.kind, op.selStart, op.selEnd, |file|);
    if op.kind == Delete then Ok(Edit(op.kind, range.0, range.1, []))
    else if op.content.None? then Err(ContentInvalid)
    else
      match op.content.value
      case FileSlice(slice) => Ok(Edit(op.kind, range.0, range.1, slice))
      case Text(text) =>
        if Valid(text) then Ok(Edit(op.kind, range.0, range.1, Normalize(text, EolBytes(DominantEol(file)))))
        else Err(TextInvalid)
  }

  function CompileAll(file: bytes, ops: seq<Operation>): (r: Result<seq<Edit>, TransformError>)
    ensures r.Ok? ==> |r.value| == |ops| && forall k :: 0 <= k < |ops| ==> CompileOne(file, ops[k]) == Ok(r.value[k])
  {
    if ops == [] then Ok([])
    else
      var first := CompileOne(file, ops[0]);
      if first.Err? then Err(first.error)
      else
        var rest := CompileAll(file, ops[1..]);
        if rest.Err? then rest else Ok([first.value] + rest.value)
  }

  /** Stands for the receipt hash: the payload it is computed from, compared by content. */
  datatype Receipt = Receipt(source: bytes, edits: seq<Edit>)

  datatype Compiled = Compiled(sorted: seq<Edit>, bytesAfter: int, receipt: Receipt)

  /** Everything a preview computes; it writes nothing. */
  function Compile(file: bytes, expected: bytes, ops: seq<Operation>, maxBytes: int): Result<Compiled, TransformError> {
    if expected != file then Err(SourceChanged)
    else if ops == [] then Err(OperationInvalid)
    else
      var edits := CompileAll(file, ops);
      if edits.Err? then Err(edits.error)
      else
        var sorted := Sort(edits.value);
        if !NeighboursClear(sorted) then Err(OverlapError)
        else if BytesAfter(|file|, sorted) > maxBytes then Err(SizeLimit)
        else Ok(Compiled(sorted, BytesAfter(|file|, sorted), Receipt(file, edits.value)))
  }

  predicate SelectionsInFile(file: bytes, ops: seq<Operation>) {
    forall k :: 0 <= k < |ops| ==> 0 <= ops[k].selStart <= ops[k].selEnd <= |file|
  }

  lemma CompiledIsOrdered(file: bytes, expected: bytes, ops: seq<Operation>, maxBytes: int)
    requires SelectionsInFile(file, ops) && Compile(file, expected, ops, maxBytes).Ok?
    ensures var c := Compile(file, expected, ops, maxBytes).value;
      AllInFile(c.sorted, file) && StrictlyOrdered(c.sorted) && |Splice(file, c.sorted, 0)| == c.bytesAfter <= maxBytes
  {
    var edits := CompileAll(file, ops).value;
    forall k | 0 <= k < |edits| ensures InFile(edits[k], file) { assert CompileOne(file, ops[k]) == Ok(edits[k]); }
    SortInFile(edits, file);
    SortSorts(edits);
    NeighboursImplyAll(Sort(edits));
    AnnouncedSizeExact(file, Sort(edits), 0);
  }

  predicate ContentValid(op: Operation) {
    op.content.Some? && op.content.value.FileSlice? ==> Valid(op.content.value.slice)
  }

  /** UTF-8 closure of the whole transform: whole-character selections in, a valid file out. */
  lemma TransformKeepsUtf8(file: bytes, expected: bytes, ops: seq<Operation>, maxBytes: int)
    requires Valid(file) && SelectionsInFile(file, ops) && Compile(file, expected, ops, maxBytes).Ok?
    requires forall k :: 0 <= k < |ops| ==>
      Boundary(file, ops[k].selStart) && Boundary(file, ops[k].selEnd) && ContentValid(ops[k])
    ensures var c := Compile(file, expected, ops, maxBytes).value;
      AllInFile(c.sorted, file) && StrictlyOrdered(c.sorted) && Valid(Splice(file, c.sorted, 0))
  {
    var c := Compile(file, expected, ops, maxBytes).value;
    assert c.sorted == Sort(CompileAll(file, ops).value);
    CompiledIsOrdered(file, expected, ops, maxBytes);
    SortedEditsValid(file, ops);
    OrderedSpliceValid(file, c.sorted);
  }

  lemma OrderedSpliceValid(file: bytes, sorted: seq<Edit>)
    requires Valid(file) && AllInFile(sorted, file) && StrictlyOrdered(sorted)
    requires EditsValid(file, sorted)
    ensures Valid(Splice(file, sorted, 0))
  {
    SpliceValid(file, sorted, 0);
  }

  lemma SortedEditsValid(file: bytes, ops: seq<Operation>)
    requires CompileAll(file, ops).Ok?
    requires forall k :: 0 <= k < |ops| ==>
      Boundary(file, ops[k].selStart) && Boundary(file, ops[k].selEnd) && ContentValid(ops[k])
    ensures EditsValid(file, Sort(CompileAll(file, ops).value))
  {
    var edits := CompileAll(file, ops).value;
    forall i | 0 <= i < |edits| ensures EditValid(file, edits[i]) { CompiledEditValid(file, ops[i]); }
    SortSorts(edits);
    forall k | 0 <= k < |Sort(edits)| ensures EditValid(file, Sort(edits)[k]) {
      assert Sort(edits)[k] in multiset(edits);
    }
  }

  lemma CompiledEditValid(file: bytes, op: Operation)
    requires CompileOne(file, op).Ok? && Boundary(file, op.selStart) && Boundary(file, op.selEnd) && ContentValid(op)
    ensures EditValid(file, CompileOne(file, op).value)
  {
    if op.kind != Delete && op.content.value.Text? { NormalizeValid(op.content.value.text, EolBytes(DominantEol(file))); }
  }

  // ---------- Committing ----------

  datatype Committed = Committed(bytesBefore: int, bytesAfter: int, backup: bytes)

  /** The request compiles and carries the receipt of its preview. */
  predicate Honoured(source: bytes, expected: bytes, ops: seq<Operation>, maxBytes: int, receipt: Receipt)
    requires SelectionsInFile(source, ops)
  {
    var compiled := Compile(source, expected, ops, maxBytes);
    compiled.Ok? && receipt == compiled.value.receipt
  }

  function Or(replaced: Option<bytes>, otherwise: bytes): bytes { if replaced.Some? then replaced.value else otherwise }

  /** The target on disk, and the temporary file the atomic writer may leave beside it. */
  class Target {
    var content: bytes
    var temporary: Option<bytes>

    constructor (content: bytes)
      ensures this.content == content && temporary == None
    {
      this.content, temporary := content, None;
    }

    /**
      `foreign` is another process replacing the target while the temporary file is written (what is then read from
      the target is `torn`); `othersUnchanged` is the re-check of content sources; `late` is another process replacing the
      target between the last check and the rename; the rename may fail. What is replaced before the check survives, for
      the check refuses; what is replaced after it is lost exactly when the rename works, and is not in the backup.
     */
    method Commit(expected: bytes, ops: seq<Operation>, maxBytes: int, receipt: Receipt,
                  foreign: Option<bytes>, torn: bytes, othersUnchanged: bool, late: Option<bytes>, renameSucceeds: bool)
        returns (r: Result<Committed, TransformError>)
      requires temporary == None && SelectionsInFile(content, ops)
      modifies this
      ensures temporary == None
      ensures r.Err? && !Honoured(old(content), expected, ops, maxBytes, receipt) ==> content == old(content)
      ensures r.Err? && Honoured(old(content), expected, ops, maxBytes, receipt) ==>
        content == Or(if r.error == IoFailure then late else None, Or(foreign, old(content)))
      ensures Honoured(old(content), expected, ops, maxBytes, receipt) ==>
        if Or(foreign, old(content)) != old(content) || !othersUnchanged then r == Err(SourceChanged)
        else if !renameSucceeds then r == Err(IoFailure) else r.Ok?
      ensures r.Ok? ==>
        var preview := Compile(old(content), expected, ops, maxBytes);
        && preview.Ok? && receipt == preview.value.receipt && (foreign.None? || foreign.value == old(content))
        && AllInFile(preview.value.sorted, old(content)) && StrictlyOrdered(preview.value.sorted)
        && content == Splice(old(content), preview.value.sorted, 0)
        && r.value == Committed(|old(content)|, preview.value.bytesAfter, old(content))
        && |content| == preview.value.bytesAfter
      ensures r.Ok? ==> Honoured(old(content), expected, ops, maxBytes, receipt)
    {
      var source := content;
      var compiled := Compile(source, expected, ops, maxBytes);
      if compiled.Err? { return Err(compiled.error); }
      if receipt != compiled.value.receipt { return Err(ReceiptInvalid); }
      CompiledIsOrdered(source, expected, ops, maxBytes);
      var output := WriteContent(source, compiled.value.sorted);
      if foreign.Some? {
        content := foreign.value;
        if content != source { output := torn; }
      }
      temporary := Some(output);
      var backup := content;
      if content != source || !othersUnchanged {
        temporary := None;
        return Err(SourceChanged);
      }
      if late.Some? { content := late.value; }
      if !renameSucceeds {
        temporary := None;
        return Err(IoFailure);
      }
      content, temporary := output, None;
      return Ok(Committed(|source|, |output|, backup));
    }
  }
}
