/**
  The section index of a Markdown document: from the list of its headings, the path, occurrence number, extent and child
  count of every section, and the byte ranges of the five section edits.
 */
module MarkdownSections {
  import opened Results

  type byte = bv8

  type HeadingPath = seq<string>

  /** A top-level heading as the parser reports it, positions in bytes of the decoded text. */
  datatype Heading = Heading(title: string, depth: int, start: int, headingEnd: int)

  datatype Section = Section(path: HeadingPath, depth: int, occurrence: nat, start: int, headingEnd: int, bodyStart: int,
                             end: int, childCount: int)

  const LF: byte := 0x0A
  const CR: byte := 0x0D

  function ConsumeLineEnding(text: seq<byte>, offset: int): int
    requires 0 <= offset <= |text|
  {
    if offset + 1 < |text| && text[offset] == CR && text[offset + 1] == LF then offset + 2
    else if offset < |text| && (text[offset] == LF || text[offset] == CR) then offset + 1
    else offset
  }

  /** What the parser guarantees: headings in document order, each starting on a line after the previous one. */
  ghost predicate Parsed(hs: seq<Heading>, text: seq<byte>) {
    && (forall i :: 0 <= i < |hs| ==> 0 <= hs[i].start < hs[i].headingEnd <= |text|)
    && (forall i, j :: 0 <= i < j < |hs| ==> ConsumeLineEnding(text, hs[i].headingEnd) <= hs[j].start)
  }

  // ---------- What the index means ----------

  /** Heading `j` lies in the section of heading `i`: everything after `i` up to `j` is deeper than `i`. */
  predicate Encloses(hs: seq<Heading>, i: nat, j: nat)
    requires j < |hs|
  {
    i < j && forall m :: i < m <= j ==> hs[m].depth > hs[i].depth
  }

  /** Indices below `k` of the sections that enclose heading `j`, outermost first. */
  function Enclosing(hs: seq<Heading>, j: nat, k: nat): (r: seq<nat>)
    requires j < |hs| && k <= j
    ensures forall m :: 0 <= m < |r| ==> r[m] < k && Encloses(hs, r[m], j)
  {
    if k == 0 then []
    else if Encloses(hs, k - 1, j) then Enclosing(hs, j, k - 1) + [k - 1] else Enclosing(hs, j, k - 1)
  }

  function Titles(hs: seq<Heading>, indices: seq<nat>): HeadingPath
    requires forall m :: 0 <= m < |indices| ==> indices[m] < |hs|
  {
    seq(|indices|, m requires 0 <= m < |indices| => hs[indices[m]].title)
  }

  ghost predicate IndicesAscend(e: seq<nat>, below: nat) {
    && (forall m :: 0 <= m < |e| ==> e[m] < below)
    && (forall m, n :: 0 <= m < n < |e| ==> e[m] < e[n])
  }

  lemma {:induction false} EnclosingAscends(hs: seq<Heading>, j: nat, k: nat)
    requires j < |hs| && k <= j
    ensures IndicesAscend(Enclosing(hs, j, k), k)
  {
    if k > 0 {
      EnclosingAscends(hs, j, k - 1);
      AscendSnoc(Enclosing(hs, j, k - 1), k - 1);
    }
  }

  lemma AscendSnoc(e: seq<nat>, last: nat)
    requires IndicesAscend(e, last)
    ensures IndicesAscend(e + [last], last + 1) && IndicesAscend(e, last + 1)
  {
  }

  lemma {:induction false} EnclosingComplete(hs: seq<Heading>, j: nat, k: nat, i: nat)
    requires i < k <= j < |hs| && Encloses(hs, i, j)
    ensures i in Enclosing(hs, j, k)
  {
    if i < k - 1 { EnclosingComplete(hs, j, k - 1, i); }
  }

  /** The enclosing sections get deeper and deeper. */
  lemma EnclosingDeepens(hs: seq<Heading>, j: nat)
    requires j < |hs|
    ensures DepthsAscend(hs, Enclosing(hs, j, j) + [j])
  {
    EnclosingAscends(hs, j, j);
    var inner := Enclosing(hs, j, j);
    AscendSnoc(inner, j);
    var e := inner + [j];
    forall m, n | 0 <= m < n < |e| ensures hs[e[m]].depth < hs[e[n]].depth {
      assert Encloses(hs, inner[m], j);
      assert e[m] < e[n] <= j;
    }
  }

  function PathOf(hs: seq<Heading>, j: nat): HeadingPath
    requires j < |hs|
  {
    Titles(hs, Enclosing(hs, j, j)) + [hs[j].title]
  }

  /** The first heading after `i`, from `k` on, that is not deeper than `i`. */
  function EndIndex(hs: seq<Heading>, i: nat, k: nat): (r: nat)
    requires i < k <= |hs|
    ensures k <= r <= |hs|
    ensures forall m :: k <= m < r ==> hs[m].depth > hs[i].depth
    ensures r < |hs| ==> hs[r].depth <= hs[i].depth
    decreases |hs| - k
  {
    if k == |hs| then k else if hs[k].depth <= hs[i].depth then k else EndIndex(hs, i, k + 1)
  }

  function EndOffset(hs: seq<Heading>, size: int, i: nat): int
    requires i < |hs|
  {
    var e := EndIndex(hs, i, i + 1);
    if e == |hs| then size else hs[e].start
  }

  function SamePathBefore(hs: seq<Heading>, path: HeadingPath, k: nat): nat
    requires k <= |hs|
  {
    if k == 0 then 0 else SamePathBefore(hs, path, k - 1) + if PathOf(hs, k - 1) == path then 1 else 0
  }

  function OccurrenceOf(hs: seq<Heading>, i: nat): nat
    requires i < |hs|
  {
    SamePathBefore(hs, PathOf(hs, i), i) + 1
  }

  function SectionAt(hs: seq<Heading>, text: seq<byte>, i: nat): Section
    requires i < |hs| && 0 <= hs[i].headingEnd <= |text|
  {
    Section(PathOf(hs, i), hs[i].depth, OccurrenceOf(hs, i), hs[i].start, hs[i].headingEnd,
            ConsumeLineEnding(text, hs[i].headingEnd), EndOffset(hs, |text|, i), EndIndex(hs, i, i + 1) - i - 1)
  }

  // ---------- The one pass with a stack ----------

  /** The entries of a stack that are shallower than `depth`. */
  function Shallower(hs: seq<Heading>, stack: seq<nat>, depth: int): seq<nat> {
    if stack == [] then []
    else
      var top := stack[|stack| - 1];
      if top < |hs| && hs[top].depth < depth then Shallower(hs, stack[..|stack| - 1], depth) + [top]
      else Shallower(hs, stack[..|stack| - 1], depth)
  }

  ghost predicate DepthsAscend(hs: seq<Heading>, stack: seq<nat>) {
    && (forall m :: 0 <= m < |stack| ==> stack[m] < |hs|)
    && (forall m, n :: 0 <= m < n < |stack| ==> hs[stack[m]].depth < hs[stack[n]].depth)
  }

  lemma ShallowerSnoc(hs: seq<Heading>, stack: seq<nat>, top: nat, depth: int)
    requires top < |hs|
    ensures Shallower(hs, stack + [top], depth)
         == if hs[top].depth < depth then Shallower(hs, stack, depth) + [top] else Shallower(hs, stack, depth)
  {
    assert (stack + [top])[..|stack|] == stack;
  }

  lemma {:induction false} AllShallower(hs: seq<Heading>, stack: seq<nat>, depth: int)
    requires DepthsAscend(hs, stack) && (stack != [] ==> hs[stack[|stack| - 1]].depth < depth)
    ensures Shallower(hs, stack, depth) == stack
  {
    if stack != [] {
      AllShallower(hs, stack[..|stack| - 1], depth);
      assert stack == stack[..|stack| - 1] + [stack[|stack| - 1]];
    }
  }

  /** The pop loop. */
  method PopTo(hs: seq<Heading>, stack: seq<nat>, depth: int) returns (popped: seq<nat>)
    requires DepthsAscend(hs, stack)
    ensures popped == Shallower(hs, stack, depth) && DepthsAscend(hs, popped)
  {
    popped := stack;
    while popped != [] && hs[popped[|popped| - 1]].depth >= depth
      invariant DepthsAscend(hs, popped) && Shallower(hs, popped, depth) == Shallower(hs, stack, depth)
    {
      popped := popped[..|popped| - 1];
    }
    AllShallower(hs, popped, depth);
  }

  lemma EnclosesNext(hs: seq<Heading>, i: nat, j: nat)
    requires i < j && j + 1 < |hs|
    ensures Encloses(hs, i, j + 1) <==> Encloses(hs, i, j) && hs[i].depth < hs[j + 1].depth
  {
  }

  /** Going on to the next heading: of the sections open so far, those shallower than it stay open. */
  lemma {:induction false} OpenSectionsStep(hs: seq<Heading>, j: nat, k: nat)
    requires j + 1 < |hs| && k <= j
    ensures Shallower(hs, Enclosing(hs, j, k), hs[j + 1].depth) == Enclosing(hs, j + 1, k)
  {
    if k > 0 {
      hide Encloses, Shallower;
      OpenSectionsStep(hs, j, k - 1);
      OneMoreOpen(hs, j, k - 1);
    } else {
      assert Enclosing(hs, j, 0) == [] == Enclosing(hs, j + 1, 0);
    }
  }

  lemma OneMoreOpen(hs: seq<Heading>, j: nat, k: nat)
    requires j + 1 < |hs| && k < j
    requires Shallower(hs, Enclosing(hs, j, k), hs[j + 1].depth) == Enclosing(hs, j + 1, k)
    ensures Shallower(hs, Enclosing(hs, j, k + 1), hs[j + 1].depth) == Enclosing(hs, j + 1, k + 1)
  {
    hide Encloses, Shallower;
    var last := Enclosing(hs, j, k);
    EnclosesNext(hs, k, j);
    ShallowerSnoc(hs, last, k, hs[j + 1].depth);
    assert Enclosing(hs, j, k + 1) == if Encloses(hs, k, j) then last + [k] else last;
  }

  lemma StackStep(hs: seq<Heading>, j: nat)
    requires j + 1 < |hs|
    ensures Shallower(hs, Enclosing(hs, j, j) + [j], hs[j + 1].depth) == Enclosing(hs, j + 1, j + 1)
  {
    OpenSectionsStep(hs, j, j);
    ShallowerSnoc(hs, Enclosing(hs, j, j), j, hs[j + 1].depth);
    assert Encloses(hs, j, j + 1) <==> hs[j].depth < hs[j + 1].depth;
  }

  method FindEnd(hs: seq<Heading>, size: int, i: nat) returns (end: int, children: int)
    requires i < |hs|
    ensures end == EndOffset(hs, size, i) && children == EndIndex(hs, i, i + 1) - i - 1
  {
    end, children := size, 0;
    for cursor := i + 1 to |hs|
      invariant children == cursor - i - 1 && end == size
      invariant EndIndex(hs, i, i + 1) == EndIndex(hs, i, cursor)
    {
      if hs[cursor].depth <= hs[i].depth {
        end := hs[cursor].start;
        break;
      }
      children := children + 1;
    }
  }

  ghost predicate CountsPaths(hs: seq<Heading>, occurrences: map<HeadingPath, nat>, k: nat)
    requires k <= |hs|
  {
    forall p :: SamePathBefore(hs, p, k) == Count(occurrences, p)
  }

  function Count(occurrences: map<HeadingPath, nat>, p: HeadingPath): nat { if p in occurrences then occurrences[p] else 0 }

  lemma CountStep(hs: seq<Heading>, occurrences: map<HeadingPath, nat>, i: nat)
    requires i < |hs| && CountsPaths(hs, occurrences, i)
    ensures Count(occurrences, PathOf(hs, i)) + 1 == OccurrenceOf(hs, i)
    ensures CountsPaths(hs, occurrences[PathOf(hs, i) := OccurrenceOf(hs, i)], i + 1)
  {
    assert SamePathBefore(hs, PathOf(hs, i), i) == Count(occurrences, PathOf(hs, i));
    var after := occurrences[PathOf(hs, i) := OccurrenceOf(hs, i)];
    forall p ensures SamePathBefore(hs, p, i + 1) == Count(after, p) {
      assert SamePathBefore(hs, p, i) == Count(occurrences, p);
    }
  }

  ghost predicate StackOk(hs: seq<Heading>, stack: seq<nat>, i: nat) {
    DepthsAscend(hs, stack) && (i < |hs| ==> Shallower(hs, stack, hs[i].depth) == Enclosing(hs, i, i))
  }

  lemma StackKept(hs: seq<Heading>, i: nat)
    requires i < |hs|
    ensures StackOk(hs, Enclosing(hs, i, i) + [i], i + 1)
  {
    hide Encloses, Enclosing;
    EnclosingDeepens(hs, i);
    if i + 1 < |hs| { StackStep(hs, i); }
  }

  /** Once path and number are known. */
  method MakeSection(hs: seq<Heading>, text: seq<byte>, i: nat, path: HeadingPath, occurrence: nat) returns (section: Section)
    requires i < |hs| && 0 <= hs[i].headingEnd <= |text| && path == PathOf(hs, i) && occurrence == OccurrenceOf(hs, i)
    ensures section == SectionAt(hs, text, i)
  {
    hide PathOf, OccurrenceOf, EndIndex, EndOffset;
    var end, children := FindEnd(hs, |text|, i);
    return Section(path, hs[i].depth, occurrence, hs[i].start, hs[i].headingEnd,
                   ConsumeLineEnding(text, hs[i].headingEnd), end, children);
  }

  /** One turn of the loop over the headings. */
  method AddSection(hs: seq<Heading>, text: seq<byte>, i: nat, stack: seq<nat>, occurrences: map<HeadingPath, nat>)
    returns (section: Section, stack': seq<nat>, occurrences': map<HeadingPath, nat>)
    requires Parsed(hs, text) && i < |hs| && StackOk(hs, stack, i) && CountsPaths(hs, occurrences, i)
    ensures section == SectionAt(hs, text, i)
    ensures StackOk(hs, stack', i + 1) && CountsPaths(hs, occurrences', i + 1)
  {
    hide Encloses, Enclosing, CountsPaths, EndIndex, SamePathBefore, SectionAt, OccurrenceOf;
    stack' := PopTo(hs, stack, hs[i].depth);
    var path := Titles(hs, stack') + [hs[i].title];
    assert path == PathOf(hs, i);
    var occurrence := Count(occurrences, path) + 1;
    CountStep(hs, occurrences, i);
    section := MakeSection(hs, text, i, path, occurrence);
    StackKept(hs, i);
    return section, stack' + [i], occurrences[path := occurrence];
  }

  method BuildIndex(hs: seq<Heading>, text: seq<byte>) returns (sections: seq<Section>)
    requires Parsed(hs, text)
    ensures |sections| == |hs| && forall i :: 0 <= i < |hs| ==> sections[i] == SectionAt(hs, text, i)
  {
    sections := [];
    var stack: seq<nat>, occurrences: map<HeadingPath, nat> := [], map[];
    for i := 0 to |hs|
      invariant StackOk(hs, stack, i) && CountsPaths(hs, occurrences, i)
      invariant |sections| == i && forall j :: 0 <= j < i ==> sections[j] == SectionAt(hs, text, j)
    {
      var section;
      section, stack, occurrences := AddSection(hs, text, i, stack, occurrences);
      sections := sections + [section];
    }
  }

  // ---------- The forest of sections ----------

  /** Among the headings after `i`, the section of `i` holds exactly those it encloses. */
  lemma HoldsWhatItEncloses(hs: seq<Heading>, i: nat, j: nat)
    requires i < j < |hs|
    ensures Encloses(hs, i, j) <==> j < EndIndex(hs, i, i + 1)
  {
  }

  lemma EndOffsetInText(hs: seq<Heading>, text: seq<byte>, i: nat)
    requires Parsed(hs, text) && i < |hs|
    ensures ConsumeLineEnding(text, hs[i].headingEnd) <= EndOffset(hs, |text|, i) <= |text|
    ensures forall j :: i < j < |hs| ==> (j < EndIndex(hs, i, i + 1) <==> hs[j].start < EndOffset(hs, |text|, i))
  {
    var e := EndIndex(hs, i, i + 1);
    if e < |hs| { StartsAscend(hs, text); }
  }

  lemma StartsAscend(hs: seq<Heading>, text: seq<byte>)
    requires Parsed(hs, text)
    ensures forall i, j :: 0 <= i < j < |hs| ==> hs[i].start < hs[j].start
  {
    forall i, j | 0 <= i < j < |hs| ensures hs[i].start < hs[j].start {
      assert hs[i].headingEnd <= ConsumeLineEnding(text, hs[i].headingEnd) <= hs[j].start;
    }
  }

  /** Any two sections are nested or disjoint, and nested exactly when the path of one runs through the other. */
  lemma NestedOrDisjoint(hs: seq<Heading>, text: seq<byte>, i: nat, j: nat)
    requires Parsed(hs, text) && i < j < |hs|
    ensures var a, b := SectionAt(hs, text, i), SectionAt(hs, text, j);
      && a.start < b.start
      && if Encloses(hs, i, j) then a.bodyStart <= b.start && b.end <= a.end else a.end <= b.start
    ensures Encloses(hs, i, j) <==> i in Enclosing(hs, j, j)
  {
    StartsAscend(hs, text);
    EndOffsetInText(hs, text, i);
    EndOffsetInText(hs, text, j);
    HoldsWhatItEncloses(hs, i, j);
    if Encloses(hs, i, j) {
      EnclosingComplete(hs, j, j, i);
      var ei, ej := EndIndex(hs, i, i + 1), EndIndex(hs, j, j + 1);
      if ei < |hs| { assert hs[ei].depth <= hs[i].depth < hs[j].depth; }
      assert ej <= ei;
    }
  }

  // ---------- Looking a section up ----------

  datatype LookupError = SectionNotFound | SectionChanged

  /** The first `k` sections, filtered by path. */
  function Matching(sections: seq<Section>, path: HeadingPath, k: nat): seq<Section>
    requires k <= |sections|
  {
    if k == 0 then []
    else if sections[k - 1].path == path then Matching(sections, path, k - 1) + [sections[k - 1]]
    else Matching(sections, path, k - 1)
  }

  function Content(file: seq<byte>, s: Section): seq<byte> {
    if 0 <= s.start <= s.end <= |file| then file[s.start..s.end] else []
  }

  /** `expected` is the content a caller's expected hash stands for; it is taken from the file, not from the decoded text. */
  function FindSection(sections: seq<Section>, file: seq<byte>, path: HeadingPath, occurrence: int, expected: Option<seq<byte>>)
    : Result<Section, LookupError>
  {
    var matches := Matching(sections, path, |sections|);
    if occurrence < 1 || occurrence > |matches| then Err(SectionNotFound)
    else if expected.Some? && expected.value != Content(file, matches[occurrence - 1]) then Err(SectionChanged)
    else Ok(matches[occurrence - 1])
  }

  ghost predicate IsIndex(sections: seq<Section>, hs: seq<Heading>, text: seq<byte>) {
    Parsed(hs, text) && |sections| == |hs| && forall i :: 0 <= i < |hs| ==> sections[i] == SectionAt(hs, text, i)
  }

  /** Each section's number counts the sections up to it with its path. */
  ghost predicate Numbered(sections: seq<Section>) {
    forall i :: 0 <= i < |sections| ==> sections[i].occurrence == |Matching(sections, sections[i].path, i)| + 1
  }

  lemma {:induction false} IndexCounts(sections: seq<Section>, hs: seq<Heading>, text: seq<byte>, k: nat, path: HeadingPath)
    requires IsIndex(sections, hs, text) && k <= |hs|
    ensures |Matching(sections, path, k)| == SamePathBefore(hs, path, k)
  {
    if k > 0 {
      IndexCounts(sections, hs, text, k - 1, path);
      assert sections[k - 1] == SectionAt(hs, text, k - 1);
    }
  }

  lemma IndexNumbered(sections: seq<Section>, hs: seq<Heading>, text: seq<byte>)
    requires IsIndex(sections, hs, text)
    ensures Numbered(sections)
  {
    forall i | 0 <= i < |sections| ensures sections[i].occurrence == |Matching(sections, sections[i].path, i)| + 1 {
      assert sections[i] == SectionAt(hs, text, i);
      IndexCounts(sections, hs, text, i, sections[i].path);
    }
  }

  ghost predicate NumberedFromOne(m: seq<Section>, sections: seq<Section>, path: HeadingPath) {
    forall n :: 0 <= n < |m| ==> m[n].path == path && m[n].occurrence == n + 1 && m[n] in sections
  }

  lemma NumberedSnoc(m: seq<Section>, last: Section, sections: seq<Section>, path: HeadingPath)
    requires NumberedFromOne(m, sections, path) && last in sections && last.path == path && last.occurrence == |m| + 1
    ensures NumberedFromOne(m + [last], sections, path)
  {
  }

  /** The matches for a path, in order, carry the numbers 1, 2, ... */
  lemma {:induction false} MatchesAreNumbered(sections: seq<Section>, path: HeadingPath, k: nat)
    requires Numbered(sections) && k <= |sections|
    ensures NumberedFromOne(Matching(sections, path, k), sections, path)
  {
    if k > 0 {
      MatchesAreNumbered(sections, path, k - 1);
      if sections[k - 1].path == path { NumberedSnoc(Matching(sections, path, k - 1), sections[k - 1], sections, path); }
    }
  }

  /** Section `i` is found at its own number. */
  lemma {:induction false} FoundAtItsNumber(sections: seq<Section>, i: nat, k: nat)
    requires Numbered(sections) && i < k <= |sections|
    ensures var m, n := Matching(sections, sections[i].path, k), sections[i].occurrence; 1 <= n <= |m| && m[n - 1] == sections[i]
  {
    if i < k - 1 { FoundAtItsNumber(sections, i, k - 1); }
  }

  /** Asking for what was listed answers the listed section, whatever file the hashes were taken from. */
  lemma ListedIsFound(sections: seq<Section>, hs: seq<Heading>, text: seq<byte>, file: seq<byte>, i: nat)
    requires IsIndex(sections, hs, text) && i < |hs|
    ensures FindSection(sections, file, sections[i].path, sections[i].occurrence, Some(Content(file, sections[i]))) == Ok(sections[i])
  {
    IndexNumbered(sections, hs, text);
    FoundAtItsNumber(sections, i, |sections|);
  }

  /** What is found under a path and a number is listed under them; what is not found is not listed. */
  lemma FoundIffListed(sections: seq<Section>, hs: seq<Heading>, text: seq<byte>, file: seq<byte>, path: HeadingPath,
                       occurrence: int)
    requires IsIndex(sections, hs, text)
    ensures match FindSection(sections, file, path, occurrence, None)
      case Ok(s) => s in sections && s.path == path && s.occurrence == occurrence
      case Err(_) => NotListed(sections, path, occurrence)
  {
    IndexNumbered(sections, hs, text);
    MatchesAreNumbered(sections, path, |sections|);
    if occurrence < 1 || occurrence > |Matching(sections, path, |sections|)| { OutOfRangeNotListed(sections, path, occurrence); }
  }

  ghost predicate NotListed(sections: seq<Section>, path: HeadingPath, occurrence: int) {
    forall i :: 0 <= i < |sections| ==> !(sections[i].path == path && sections[i].occurrence == occurrence)
  }

  lemma OutOfRangeNotListed(sections: seq<Section>, path: HeadingPath, occurrence: int)
    requires Numbered(sections) && (occurrence < 1 || occurrence > |Matching(sections, path, |sections|)|)
    ensures NotListed(sections, path, occurrence)
  {
    forall i | 0 <= i < |sections| && sections[i].path == path ensures sections[i].occurrence != occurrence {
      FoundAtItsNumber(sections, i, |sections|);
    }
  }

  /** Path and number identify a section. */
  lemma PathAndNumberIdentify(sections: seq<Section>, hs: seq<Heading>, text: seq<byte>, i: nat, j: nat)
    requires IsIndex(sections, hs, text) && i < j < |sections|
    ensures sections[i].path != sections[j].path || sections[i].occurrence != sections[j].occurrence
  {
    IndexNumbered(sections, hs, text);
    FoundAtItsNumber(sections, i, j);
  }

  // ---------- Edits ----------

  datatype EditKind = ReplaceBody | AppendToSection | InsertBefore | InsertAfter | ReplaceSection

  function EditRange(kind: EditKind, s: Section): (int, int) {
    match kind
    case ReplaceBody => (s.bodyStart, s.end)
    case AppendToSection => (s.end, s.end)
    case InsertBefore => (s.start, s.start)
    case InsertAfter => (s.end, s.end)
    case ReplaceSection => (s.start, s.end)
  }

  function Edited(text: seq<byte>, range: (int, int), content: seq<byte>): seq<byte>
    requires 0 <= range.0 <= range.1 <= |text|
  {
    text[..range.0] + content + text[range.1..]
  }

  /** The bytes from `from` to `to` are kept, moved by `shift`. */
  predicate Keeps(text: seq<byte>, after: seq<byte>, from: int, to: int, shift: int) {
    && 0 <= from <= to <= |text| && 0 <= from + shift && to + shift <= |after|
    && after[from + shift..to + shift] == text[from..to]
  }

  lemma EditInText(hs: seq<Heading>, text: seq<byte>, kind: EditKind, i: nat)
    requires Parsed(hs, text) && i < |hs|
    ensures var s := SectionAt(hs, text, i); s.start <= EditRange(kind, s).0 <= EditRange(kind, s).1 <= s.end
    ensures var s := SectionAt(hs, text, i); 0 <= s.start <= s.bodyStart <= s.end <= |text|
  {
    EndOffsetInText(hs, text, i);
  }

  /**
    Whatever the edit of section `i`, every section that is neither inside it nor around it keeps its bytes: where they
    were, or moved by the change in size.
   */
  lemma OtherSectionsUntouched(hs: seq<Heading>, text: seq<byte>, kind: EditKind, content: seq<byte>, i: nat, j: nat)
    requires Parsed(hs, text) && i < |hs| && j < |hs| && i != j
    requires !Encloses(hs, i, j) && !Encloses(hs, j, i)
    ensures var range, o := EditRange(kind, SectionAt(hs, text, i)), SectionAt(hs, text, j);
      && 0 <= range.0 <= range.1 <= |text|
      && Keeps(text, Edited(text, range, content), o.start, o.end, if j < i then 0 else |content| - (range.1 - range.0))
  {
    hide SectionAt, Encloses, Edited, Keeps;
    EditInText(hs, text, kind, i);
    EditInText(hs, text, kind, j);
    if j < i { NestedOrDisjoint(hs, text, j, i); } else { NestedOrDisjoint(hs, text, i, j); }
    var o := SectionAt(hs, text, j);
    Shifted(text, EditRange(kind, SectionAt(hs, text, i)), content, o.start, o.end);
  }

  lemma Shifted(text: seq<byte>, range: (int, int), content: seq<byte>, from: int, to: int)
    requires 0 <= range.0 <= range.1 <= |text| && 0 <= from <= to <= |text|
    ensures to <= range.0 ==> Keeps(text, Edited(text, range, content), from, to, 0)
    ensures range.1 <= from ==> Keeps(text, Edited(text, range, content), from, to, |content| - (range.1 - range.0))
  {
  }

  /** An insertion also keeps the section it is made at and every section inside it. */
  lemma InsertionKeepsInside(hs: seq<Heading>, text: seq<byte>, kind: EditKind, content: seq<byte>, i: nat, j: nat)
    requires Parsed(hs, text) && i < |hs| && j < |hs| && (i == j || Encloses(hs, i, j))
    requires kind in {AppendToSection, InsertBefore, InsertAfter}
    ensures var range, o := EditRange(kind, SectionAt(hs, text, i)), SectionAt(hs, text, j);
      && 0 <= range.0 <= range.1 <= |text|
      && Keeps(text, Edited(text, range, content), o.start, o.end, if kind == InsertBefore then |content| else 0)
  {
    hide SectionAt, Edited, Keeps;
    EditInText(hs, text, kind, i);
    EditInText(hs, text, kind, j);
    if i != j { NestedOrDisjoint(hs, text, i, j); }
    var o := SectionAt(hs, text, j);
    Shifted(text, EditRange(kind, SectionAt(hs, text, i)), content, o.start, o.end);
  }

  /** Replacing the body keeps the heading of the section itself, its line ending included. */
  lemma BodyEditKeepsHeading(hs: seq<Heading>, text: seq<byte>, content: seq<byte>, i: nat)
    requires Parsed(hs, text) && i < |hs|
    ensures var s := SectionAt(hs, text, i);
      && 0 <= s.bodyStart <= s.end <= |text|
      && s.bodyStart <= |Edited(text, EditRange(ReplaceBody, s), content)|
      && Edited(text, EditRange(ReplaceBody, s), content)[..s.bodyStart] == text[..s.bodyStart]
  {
    EndOffsetInText(hs, text, i);
  }

  // ---------- Files with a byte order mark ----------

  const MARK: seq<byte> := [0xEF, 0xBB, 0xBF]

  /**
    Decoding drops a byte order mark and positions are counted in the decoded text, but sections are read from the file at
    these positions: three bytes early.
   */
  lemma MarkedContent(hs: seq<Heading>, text: seq<byte>, i: nat)
    requires Parsed(hs, text) && i < |hs|
    ensures var s := SectionAt(hs, text, i);
      && 0 <= s.start <= s.end <= |text|
      && Content(MARK + text, s) == (MARK + text[..s.end])[s.start..s.end]
      && (s.start >= 3 ==> Content(MARK + text, s) == text[s.start - 3..s.end - 3])
  {
    EditInText(hs, text, ReplaceSection, i);
  }

  /** The byte that stands at a position of the text when the mark is in front. */
  function Early(text: seq<byte>, k: int): byte
    requires 0 <= k < |text|
  {
    if k < 3 then MARK[k] else text[k - 3]
  }

  predicate Repeats(text: seq<byte>, from: int, to: int)
    requires 0 <= from <= to <= |text|
  {
    forall k :: from <= k < to ==> text[k] == Early(text, k)
  }

  /** What is read is the section's own content exactly when it repeats what stands three bytes before it. */
  lemma MarkedContentFitsIff(hs: seq<Heading>, text: seq<byte>, i: nat)
    requires Parsed(hs, text) && i < |hs|
    ensures var s := SectionAt(hs, text, i);
      0 <= s.start <= s.end <= |text| && (Content(MARK + text, s) == Content(text, s) <==> Repeats(text, s.start, s.end))
  {
    EditInText(hs, text, ReplaceSection, i);
    ReadEarlyIff(text, SectionAt(hs, text, i).start, SectionAt(hs, text, i).end);
  }

  lemma ReadEarlyIff(text: seq<byte>, from: int, to: int)
    requires 0 <= from <= to <= |text|
    ensures (MARK + text)[from..to] == text[from..to] <==> Repeats(text, from, to)
  {
    var read, own := (MARK + text)[from..to], text[from..to];
    assert forall n :: 0 <= n < to - from ==> read[n] == Early(text, from + n) && own[n] == text[from + n];
    if read == own {
      forall k | from <= k < to ensures text[k] == Early(text, k) { assert read[k - from] == own[k - from]; }
    }
  }

  /**
    An edit of a file with a mark is the edit of its text exactly when the new content, followed by the three bytes of the
    file where the range ends, is the three bytes where it starts followed by the new content.
   */
  lemma MarkedEditFitsIff(hs: seq<Heading>, text: seq<byte>, kind: EditKind, content: seq<byte>, i: nat)
    requires Parsed(hs, text) && i < |hs|
    ensures var range, file := EditRange(kind, SectionAt(hs, text, i)), MARK + text;
      && 0 <= range.0 <= range.1 <= |text|
      && (Edited(file, range, content) == MARK + Edited(text, range, content)
          <==> content + file[range.1..range.1 + 3] == file[range.0..range.0 + 3] + content)
  {
    EditInText(hs, text, kind, i);
    EditedThreeEarly(text, EditRange(kind, SectionAt(hs, text, i)), content);
  }

  lemma EditedThreeEarly(text: seq<byte>, range: (int, int), content: seq<byte>)
    requires 0 <= range.0 <= range.1 <= |text|
    ensures var file := MARK + text;
      Edited(file, range, content) == MARK + Edited(text, range, content)
      <==> content + file[range.1..range.1 + 3] == file[range.0..range.0 + 3] + content
  {
    var file, a, b := MARK + text, range.0, range.1;
    var done, meant := Edited(file, range, content), MARK + Edited(text, range, content);
    assert done == file[..a] + (content + file[b..b + 3]) + file[b + 3..] by { assert file[b..] == file[b..b + 3] + file[b + 3..]; }
    assert meant == file[..a] + (file[a..a + 3] + content) + file[b + 3..] by {
      assert file[b + 3..] == text[b..] && file[..a + 3] == MARK + text[..a] && file[..a + 3] == file[..a] + file[a..a + 3];
    }
    SameMiddle(file[..a], content + file[b..b + 3], file[a..a + 3] + content, file[b + 3..]);
  }

  lemma SameMiddle(front: seq<byte>, x: seq<byte>, y: seq<byte>, back: seq<byte>)
    requires |x| == |y|
    ensures front + x + back == front + y + back <==> x == y
  {
    if front + x + back == front + y + back {
      assert x == (front + x + back)[|front|..|front| + |x|] == (front + y + back)[|front|..|front| + |y|] == y;
    }
  }

  /** "# A", a line ending, "# B", a line ending: what is read as the second section is " A", the line ending and "#". */
  lemma MarkedDocumentMisread() returns (hs: seq<Heading>, text: seq<byte>)
    ensures |hs| == 2 && Parsed(hs, text)
    ensures Content(text, SectionAt(hs, text, 1)) == [0x23, 0x20, 0x42, LF]
    ensures Content(MARK + text, SectionAt(hs, text, 1)) == [0x20, 0x41, LF, 0x23]
    ensures var range := EditRange(ReplaceBody, SectionAt(hs, text, 0));
      && range == (4, 4) && Edited(MARK + text, range, [0x43]) == MARK + [0x23, 0x43, 0x20, 0x41, LF, 0x23, 0x20, 0x42, LF]
  {
    text := [0x23, 0x20, 0x41, LF, 0x23, 0x20, 0x42, LF];
    hs := [Heading("A", 1, 0, 3), Heading("B", 1, 4, 7)];
    assert EndOffset(hs, |text|, 0) == 4 && EndOffset(hs, |text|, 1) == 8;
    assert SectionAt(hs, text, 1).start == 4 && SectionAt(hs, text, 1).end == 8;
    assert (MARK + text)[4..8] == [0x20, 0x41, LF, 0x23] && text[4..8] == [0x23, 0x20, 0x42, LF];
    assert (MARK + text)[..4] == MARK + [0x23] && (MARK + text)[4..] == [0x20, 0x41, LF, 0x23, 0x20, 0x42, LF];
  }
}
