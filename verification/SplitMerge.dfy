/**
  Compiling a split of one file into parts and a merge of several files into one. A split that asks for full coverage is
  accepted exactly when its parts tile the source, and then merging the parts in order gives the source back.
 */
module SplitMerge {
  import opened Results
  import opened Streams
  import opened Utf8
  import opened ComposeJournal
  import ComposeInvariant

  datatype Range = Range(startByte: int, endByte: int)

  // ---------- Coverage ----------

  /** The order of the sort: by start, then by end. */
  predicate Precedes(a: Range, b: Range) {
    a.startByte < b.startByte || (a.startByte == b.startByte && a.endByte <= b.endByte)
  }

  function Insert(r: Range, sorted: seq<Range>): seq<Range> {
    if sorted == [] || Precedes(r, sorted[0]) then [r] + sorted else [sorted[0]] + Insert(r, sorted[1..])
  }

  function Sort(ranges: seq<Range>): seq<Range> { if ranges == [] then [] else Insert(ranges[0], Sort(ranges[1..])) }

  predicate Sorted(s: seq<Range>) {
    s == [] || ((forall r :: r in s[1..] ==> Precedes(s[0], r)) && Sorted(s[1..]))
  }

  /** From `cursor` on, each range starts where the one before it ended, and the last one ends at `size`. */
  predicate Chain(s: seq<Range>, cursor: int, size: int) {
    if s == [] then cursor == size
    else s[0].startByte == cursor && s[0].endByte >= s[0].startByte && Chain(s[1..], s[0].endByte, size)
  }

  /** The loop over the sorted ranges. */
  method SplitCoverage(ranges: seq<Range>, sourceBytes: int) returns (ok: bool)
    ensures ok <==> Chain(Sort(ranges), 0, sourceBytes)
  {
    var sorted := Sort(ranges);
    var cursor := 0;
    for k := 0 to |sorted|
      invariant Chain(sorted, 0, sourceBytes) <==> Chain(sorted[k..], cursor, sourceBytes)
    {
      assert sorted[k..][0] == sorted[k] && sorted[k..][1..] == sorted[k + 1..];
      if sorted[k].startByte != cursor || sorted[k].endByte < sorted[k].startByte { return false; }
      cursor := sorted[k].endByte;
    }
    return cursor == sourceBytes;
  }

  /** One of the two lies entirely before the other; an empty range may sit where others meet, not inside one. */
  predicate Apart(a: Range, b: Range) { a.endByte <= b.startByte || b.endByte <= a.startByte }

  predicate ApartFromAll(r: Range, s: seq<Range>) { forall q :: q in s ==> Apart(r, q) }

  predicate AllApart(s: seq<Range>) { s == [] || (ApartFromAll(s[0], s[1..]) && AllApart(s[1..])) }

  ghost predicate Covered(s: seq<Range>, i: int) { exists r :: r in s && r.startByte <= i < r.endByte }

  /** Proper ranges within the source, without overlap, and no byte left out. */
  ghost predicate Tiles(s: seq<Range>, from: int, size: int) {
    && from <= size && (forall r :: r in s ==> from <= r.startByte <= r.endByte <= size)
    && AllApart(s) && (forall i :: from <= i < size ==> Covered(s, i))
  }

  lemma {:induction false} InsertMembers(r: Range, s: seq<Range>)
    ensures forall q :: q in Insert(r, s) <==> q == r || q in s
  {
    if s != [] && !Precedes(r, s[0]) {
      InsertMembers(r, s[1..]);
      assert forall q :: q in s <==> q == s[0] || q in s[1..];
    }
  }

  lemma {:induction false} InsertSorted(r: Range, s: seq<Range>)
    requires Sorted(s)
    ensures Sorted(Insert(r, s))
  {
    if s != [] {
      assert forall q :: q in s <==> q == s[0] || q in s[1..];
      if Precedes(r, s[0]) {
        assert ([r] + s)[1..] == s;
      } else {
        InsertSorted(r, s[1..]);
        InsertMembers(r, s[1..]);
        assert ([s[0]] + Insert(r, s[1..]))[1..] == Insert(r, s[1..]);
      }
    }
  }

  lemma {:induction false} InsertApart(r: Range, s: seq<Range>)
    ensures AllApart(Insert(r, s)) <==> ApartFromAll(r, s) && AllApart(s)
  {
    if s == [] || Precedes(r, s[0]) {
      assert ([r] + s)[1..] == s;
    } else {
      InsertApart(r, s[1..]);
      InsertMembers(r, s[1..]);
      assert forall q :: q in s <==> q == s[0] || q in s[1..];
      assert ([s[0]] + Insert(r, s[1..]))[1..] == Insert(r, s[1..]);
      assert ApartFromAll(s[0], Insert(r, s[1..])) <==> Apart(s[0], r) && ApartFromAll(s[0], s[1..]) by {
        assert r in Insert(r, s[1..]);
      }
      assert ApartFromAll(r, s) <==> Apart(r, s[0]) && ApartFromAll(r, s[1..]) by { assert s[0] in s; }
    }
  }

  /** Sorting changes neither which ranges there are nor whether they are apart. */
  lemma {:induction false} SortKeeps(ranges: seq<Range>)
    ensures Sorted(Sort(ranges)) && (forall q :: q in Sort(ranges) <==> q in ranges)
    ensures AllApart(Sort(ranges)) <==> AllApart(ranges)
  {
    if ranges != [] {
      var rest := Sort(ranges[1..]);
      SortKeeps(ranges[1..]);
      InsertMembers(ranges[0], rest);
      InsertSorted(ranges[0], rest);
      InsertApart(ranges[0], rest);
      assert forall q :: q in ranges <==> q == ranges[0] || q in ranges[1..];
      assert ApartFromAll(ranges[0], rest) <==> ApartFromAll(ranges[0], ranges[1..]);
    }
  }

  lemma {:induction false} ChainTiles(s: seq<Range>, cursor: int, size: int)
    requires Sorted(s) && Chain(s, cursor, size)
    ensures Tiles(s, cursor, size)
  {
    if s != [] {
      ChainTiles(s[1..], s[0].endByte, size);
      assert forall q :: q in s <==> q == s[0] || q in s[1..];
      forall i | cursor <= i < size ensures Covered(s, i) {
        if i < s[0].endByte {
          assert s[0] in s;
        } else {
          assert Covered(s[1..], i);
        }
      }
    }
  }

  /** The first of sorted tiles starts at the cursor, and the others start where it ends or later. */
  lemma FirstTile(s: seq<Range>, cursor: int, size: int)
    requires s != [] && Sorted(s) && Tiles(s, cursor, size)
    ensures s[0].startByte == cursor && forall q :: q in s[1..] ==> s[0].endByte <= q.startByte
  {
    assert s[0] in s && forall q :: q in s <==> q == s[0] || q in s[1..];
    if cursor < size {
      assert Covered(s, cursor);
      var r :| r in s && r.startByte <= cursor < r.endByte;
      assert r == s[0] || Precedes(s[0], r);
    }
  }

  lemma {:induction false} TilesChain(s: seq<Range>, cursor: int, size: int)
    requires Sorted(s) && Tiles(s, cursor, size)
    ensures Chain(s, cursor, size)
  {
    if s == [] {
      assert cursor < size ==> Covered(s, cursor);
    } else {
      FirstTile(s, cursor, size);
      assert s[0] in s && forall q :: q in s <==> q == s[0] || q in s[1..];
      forall i | s[0].endByte <= i < size ensures Covered(s[1..], i) {
        assert Covered(s, i);
        var r :| r in s && r.startByte <= i < r.endByte;
        assert r in s[1..];
      }
      TilesChain(s[1..], s[0].endByte, size);
    }
  }

  /** Full coverage is accepted exactly for tilings of the source, in whatever order the parts are listed. */
  lemma CoverageIffTiling(ranges: seq<Range>, size: nat)
    ensures Chain(Sort(ranges), 0, size) <==> Tiles(ranges, 0, size)
  {
    SortKeeps(ranges);
    var sorted := Sort(ranges);
    assert Tiles(sorted, 0, size) <==> Tiles(ranges, 0, size) by {
      forall i ensures Covered(sorted, i) <==> Covered(ranges, i) { }
    }
    if Tiles(sorted, 0, size) { TilesChain(sorted, 0, size); }
    if Chain(sorted, 0, size) { ChainTiles(sorted, 0, size); }
  }

  // ---------- Merging ----------

  /** The sources in order with the separator between them. */
  function Join(contents: seq<bytes>, separator: bytes): bytes {
    if contents == [] then [] else if |contents| == 1 then contents[0] else contents[0] + (separator + Join(contents[1..], separator))
  }

  /** The writer's loop: a separator before every source but the first. */
  method WriteMerge(contents: seq<bytes>, separator: bytes) returns (output: bytes)
    ensures output == Join(contents, separator)
  {
    output := [];
    for k := 0 to |contents|
      invariant Written(contents, separator, k, output)
    {
      output := AppendSource(contents, separator, k, output);
    }
  }

  ghost predicate Written(contents: seq<bytes>, separator: bytes, k: nat, output: bytes) {
    k <= |contents| && Join(contents, separator) == output + Remaining(contents, separator, k)
  }

  method AppendSource(contents: seq<bytes>, separator: bytes, k: nat, output: bytes) returns (after: bytes)
    requires k < |contents| && Written(contents, separator, k, output)
    ensures Written(contents, separator, k + 1, after)
  {
    RemainingStep(contents, separator, k, output);
    after := output;
    if k > 0 && |separator| > 0 { after := after + separator; }
    assert after == if k > 0 then output + separator else output;
    after := after + contents[k];
  }

  /** What is still to be written before source `k`. */
  function Remaining(contents: seq<bytes>, separator: bytes, k: nat): bytes
    requires k <= |contents|
  {
    if k == 0 then Join(contents, separator) else if k == |contents| then [] else separator + Join(contents[k..], separator)
  }

  lemma RemainingStep(contents: seq<bytes>, separator: bytes, k: nat, output: bytes)
    requires k < |contents|
    ensures output + Remaining(contents, separator, k)
         == (if k > 0 then output + separator else output) + contents[k] + Remaining(contents, separator, k + 1)
  {
    assert contents[k..][0] == contents[k] && contents[k..][1..] == contents[k + 1..];
    assert contents[0..] == contents;
    var rest := Remaining(contents, separator, k + 1);
    assert Join(contents[k..], separator) == contents[k] + rest;
    Assoc(output, separator, contents[k] + rest);
    Assoc(output + separator, contents[k], rest);
    Assoc(output, contents[k], rest);
  }

  function Part(source: bytes, r: Range): bytes {
    if 0 <= r.startByte <= r.endByte <= |source| then source[r.startByte..r.endByte] else []
  }

  function Parts(source: bytes, ranges: seq<Range>): seq<bytes> {
    seq(|ranges|, k requires 0 <= k < |ranges| => Part(source, ranges[k]))
  }

  lemma JoinPart(source: bytes, s: seq<Range>)
    requires s != []
    ensures Join(Parts(source, s), []) == Part(source, s[0]) + Join(Parts(source, s[1..]), [])
  {
    assert Parts(source, s)[1..] == Parts(source, s[1..]);
    var rest := Join(Parts(source, s[1..]), []);
    assert [] + rest == rest;
  }

  lemma {:induction false} ChainJoins(source: bytes, s: seq<Range>, cursor: int)
    requires 0 <= cursor && Chain(s, cursor, |source|)
    ensures cursor <= |source| && Join(Parts(source, s), []) == source[cursor..]
  {
    if s != [] {
      ChainJoins(source, s[1..], s[0].endByte);
      JoinPart(source, s);
      hide Parts, Join;
      assert source[cursor..] == source[cursor..s[0].endByte] + source[s[0].endByte..];
    }
  }

  /** Merging the parts of an accepted full split in order of their positions gives the source back, byte for byte. */
  lemma SplitThenMergeIsIdentity(source: bytes, ranges: seq<Range>)
    requires Chain(Sort(ranges), 0, |source|)
    ensures Join(Parts(source, Sort(ranges)), []) == source
    ensures Sorted(ranges) ==> Join(Parts(source, ranges), []) == source
  {
    ChainJoins(source, Sort(ranges), 0);
    if Sorted(ranges) { SortedIsSort(ranges); }
  }

  lemma {:induction false} SortedIsSort(ranges: seq<Range>)
    requires Sorted(ranges)
    ensures Sort(ranges) == ranges
  {
    if ranges != [] {
      SortedIsSort(ranges[1..]);
      assert |ranges| > 1 ==> ranges[1] in ranges[1..];
      assert ranges == [ranges[0]] + ranges[1..];
    }
  }

  /** Coverage does not look at the listing order, so merging in listing order need not give the source back. */
  lemma ListingOrderMatters()
    ensures var source, ranges: seq<Range> := [1, 2], [Range(1, 2), Range(0, 1)];
      Chain(Sort(ranges), 0, |source|) && Join(Parts(source, ranges), []) != source
  {
    var source: bytes, ranges := [1, 2], [Range(1, 2), Range(0, 1)];
    assert Sort(ranges) == [Range(0, 1), Range(1, 2)];
    assert Chain([Range(1, 2)], 1, 2) by { assert [Range(1, 2)][1..] == []; }
    assert Sort(ranges)[1..] == [Range(1, 2)];
    assert source[1..2] == [2] && source[0..1] == [1];
    assert Parts(source, ranges) == [[2], [1]];
    assert Parts(source, ranges)[1..] == [[1]];
    assert Join([[2], [1]], []) == [2, 1];
  }

  lemma {:induction false} JoinValid(contents: seq<bytes>, separator: bytes)
    requires Valid(separator) && forall k :: 0 <= k < |contents| ==> Valid(contents[k])
    ensures Valid(Join(contents, separator))
  {
    if |contents| > 1 {
      JoinValid(contents[1..], separator);
      ValidConcat(separator, Join(contents[1..], separator));
      ValidConcat(contents[0], separator + Join(contents[1..], separator));
    }
  }

  // ---------- Compiling ----------

  /** A requested part; `selected` is the answer of its selector on the source. */
  datatype PartRequest = PartRequest(dest: string, selected: Option<Range>)

  datatype ComposeError =
    | SourceChanged | PartsInvalid | AliasInvalid | DestinationDuplicate | SelectorRefused | CoverageInvalid
    | SourcesInvalid | RepeatedSource | SizeLimit | InvalidUtf8

  /** What reading a text file refuses. */
  function Refusal(content: bytes, maxBytes: nat): Option<ComposeError> {
    if |content| > maxBytes then Some(SizeLimit) else if !Valid(content) then Some(InvalidUtf8) else None
  }

  /** A destination that exists is read as text too, of any size. */
  predicate PriorFits(docs: map<string, bytes>, dest: string) { Find(docs, dest).Some? ==> Valid(Find(docs, dest).value) }

  function Selected(part: PartRequest): Range { if part.selected.Some? then part.selected.value else Range(0, 0) }

  function SplitTarget(source: bytes, part: PartRequest, docs: map<string, bytes>): Target {
    Target(part.dest, Find(docs, part.dest), Part(source, Selected(part)))
  }

  predicate PartFits(sourcePath: string, parts: seq<PartRequest>, docs: map<string, bytes>, k: nat)
    requires k < |parts|
  {
    && parts[k].dest != sourcePath && parts[k].selected.Some? && PriorFits(docs, parts[k].dest)
    && forall j :: 0 <= j < k ==> parts[j].dest != parts[k].dest
  }

  function Ranges(parts: seq<PartRequest>): seq<Range> {
    seq(|parts|, k requires 0 <= k < |parts| => Selected(parts[k]))
  }

  /** When a split is accepted: as documented for its inputs, and independent of how the loop finds out. */
  ghost predicate SplitAccepted(sourcePath: string, source: bytes, expected: bytes, parts: seq<PartRequest>, full: bool,
                                maxBytes: nat, docs: map<string, bytes>)
  {
    && Refusal(source, maxBytes) == None && expected == source && parts != [] && (forall k :: 0 <= k < |parts| ==> PartFits(sourcePath, parts, docs, k))
    && (full ==> Tiles(Ranges(parts), 0, |source|))
  }

  /** Preview of a split: targets in listing order, or the first reason to refuse. */
  method CompileSplit(sourcePath: string, source: bytes, expected: bytes, parts: seq<PartRequest>, full: bool,
                      maxBytes: nat, docs: map<string, bytes>) returns (r: Result<seq<Target>, ComposeError>)
    ensures r.Ok? <==> SplitAccepted(sourcePath, source, expected, parts, full, maxBytes, docs)
    ensures r.Ok? ==> |r.value| == |parts| && DistinctDests(r.value) && !IsDest(r.value, sourcePath)
    ensures r.Ok? ==> forall k :: 0 <= k < |parts| ==> r.value[k] == SplitTarget(source, parts[k], docs)
  {
    var refusal := Refusal(source, maxBytes);
    if refusal.Some? { return Err(refusal.value); }
    if expected != source { return Err(SourceChanged); }
    if |parts| < 1 { return Err(PartsInvalid); }
    var destinations: set<string>, targets: seq<Target> := {}, [];
    for k := 0 to |parts|
      invariant destinations == set j | 0 <= j < k :: parts[j].dest
      invariant forall j :: 0 <= j < k ==> PartFits(sourcePath, parts, docs, j)
      invariant |targets| == k && forall j :: 0 <= j < k ==> targets[j] == SplitTarget(source, parts[j], docs)
    {
      var part := parts[k];
      if part.dest == sourcePath {
        assert !PartFits(sourcePath, parts, docs, k);
        return Err(AliasInvalid);
      }
      if part.dest in destinations {
        assert !PartFits(sourcePath, parts, docs, k);
        return Err(DestinationDuplicate);
      }
      destinations := destinations + {part.dest};
      if part.selected.None? {
        assert !PartFits(sourcePath, parts, docs, k);
        return Err(SelectorRefused);
      }
      if !PriorFits(docs, part.dest) {
        assert !PartFits(sourcePath, parts, docs, k);
        return Err(InvalidUtf8);
      }
      targets := targets + [SplitTarget(source, part, docs)];
    }
    CoverageIffTiling(Ranges(parts), |source|);
    if full {
      var covered := SplitCoverage(Ranges(parts), |source|);
      if !covered { return Err(CoverageInvalid); }
    }
    forall i, j | 0 <= i < j < |targets| ensures targets[i].dest != targets[j].dest { assert PartFits(sourcePath, parts, docs, j); }
    forall i | 0 <= i < |targets| ensures targets[i].dest != sourcePath { assert PartFits(sourcePath, parts, docs, i); }
    return Ok(targets);
  }

  /** A source of a merge and the content its expected hash stands for. */
  datatype SourceRequest = SourceRequest(path: string, expected: bytes)

  function Contents(sources: seq<SourceRequest>): seq<bytes> {
    seq(|sources|, k requires 0 <= k < |sources| => sources[k].expected)
  }

  predicate SourceFits(sources: seq<SourceRequest>, allowRepeated: bool, maxBytes: nat, docs: map<string, bytes>, k: nat)
    requires k < |sources|
  {
    && Find(docs, sources[k].path) == Some(sources[k].expected) && Refusal(sources[k].expected, maxBytes) == None
    && (allowRepeated || forall j :: 0 <= j < k ==> sources[j].path != sources[k].path)
  }

  ghost predicate MergeAccepted(sources: seq<SourceRequest>, dest: string, separator: bytes, allowRepeated: bool, maxBytes: nat,
                                docs: map<string, bytes>) {
    && sources != [] && (forall k :: 0 <= k < |sources| ==> SourceFits(sources, allowRepeated, maxBytes, docs, k))
    && (forall k :: 0 <= k < |sources| ==> sources[k].path != dest)
    && PriorFits(docs, dest) && |Join(Contents(sources), separator)| <= maxBytes
  }

  /** Preview of a merge; its one target is the separator-join of the sources in order. */
  method CompileMerge(sources: seq<SourceRequest>, dest: string, separator: bytes, allowRepeated: bool, maxBytes: nat,
                      docs: map<string, bytes>) returns (r: Result<Target, ComposeError>)
    ensures r.Ok? <==> MergeAccepted(sources, dest, separator, allowRepeated, maxBytes, docs)
    ensures r.Ok? ==> r.value == Target(dest, Find(docs, dest), Join(Contents(sources), separator))
  {
    if |sources| < 1 { return Err(SourcesInvalid); }
    var seen: set<string> := {};
    for k := 0 to |sources|
      invariant seen == set j | 0 <= j < k :: sources[j].path
      invariant forall j :: 0 <= j < k ==> SourceFits(sources, allowRepeated, maxBytes, docs, j)
    {
      if sources[k].path in seen && !allowRepeated {
        assert !SourceFits(sources, allowRepeated, maxBytes, docs, k);
        return Err(RepeatedSource);
      }
      seen := seen + {sources[k].path};
      var content := Find(docs, sources[k].path);
      if content.Some? {
        var refusal := Refusal(content.value, maxBytes);
        if refusal.Some? {
          assert !SourceFits(sources, allowRepeated, maxBytes, docs, k);
          return Err(refusal.value);
        }
      }
      if content != Some(sources[k].expected) {
        assert !SourceFits(sources, allowRepeated, maxBytes, docs, k);
        return Err(SourceChanged);
      }
    }
    if dest in seen { return Err(AliasInvalid); }
    if !PriorFits(docs, dest) { return Err(InvalidUtf8); }
    var merged := WriteMerge(Contents(sources), separator);
    if |merged| > maxBytes { return Err(SizeLimit); }
    return Ok(Target(dest, Find(docs, dest), merged));
  }

  /**
    End to end: after a committed full split whose parts are listed in order, a merge of the written parts with an empty
    separator compiles to the source, and the source itself is still there.
   */
  lemma CommittedSplitMergesBack(sourcePath: string, source: bytes, parts: seq<PartRequest>, targets: seq<Target>,
                                 sources: seq<SourceRequest>, maxBytes: nat, docs: map<string, bytes>)
    requires Find(docs, sourcePath) == Some(source) && SplitAccepted(sourcePath, source, source, parts, true, maxBytes, docs)
    requires Sorted(Ranges(parts)) && DistinctDests(targets) && |targets| == |parts| == |sources|
    requires forall k :: 0 <= k < |parts| ==> targets[k] == SplitTarget(source, parts[k], docs) && sources[k].path == parts[k].dest
    requires var after := ComposeInvariant.ResultAll(targets, docs);
      forall k :: 0 <= k < |sources| ==> Find(after, sources[k].path) == Some(sources[k].expected)
    ensures Join(Contents(sources), []) == source
    ensures Find(ComposeInvariant.ResultAll(targets, docs), sourcePath) == Some(source)
  {
    forall k | 0 <= k < |parts| ensures sources[k].expected == Part(source, Selected(parts[k])) && targets[k].dest != sourcePath {
      ComposeInvariant.ResultAllAt(targets, docs, parts[k].dest);
      assert targets[k].dest == parts[k].dest && PartFits(sourcePath, parts, docs, k);
    }
    assert Contents(sources) == Parts(source, Ranges(parts));
    CoverageIffTiling(Ranges(parts), |source|);
    SplitThenMergeIsIdentity(source, Ranges(parts));
    ComposeInvariant.ResultAllAt(targets, docs, sourcePath);
  }
}
