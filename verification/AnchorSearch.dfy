/**
  The anchor selector. A file is read chunk by chunk; the last |needle| - 1 bytes are carried over, and a hit is
  counted when it starts at or after the end of the previously counted hit. The reference is a search of the whole
  buffer for non-overlapping hits from the left.
 */
module AnchorSearch {
  import opened Results
  import opened Streams

  // ---------- Whole-buffer reference ----------

  predicate OccursAt<T(==)>(file: seq<T>, needle: seq<T>, i: int) {
    0 <= i && i + |needle| <= |file| && forall k :: 0 <= k < |needle| ==> file[i + k] == needle[k]
  }

  /** First hit at or after `from`: what the platform's buffer search returns, None for its -1. */
  function IndexOf<T(==)>(hay: seq<T>, needle: seq<T>, from: nat): (r: Option<nat>)
    ensures r.Some? ==> from <= r.value && OccursAt(hay, needle, r.value)
    ensures forall j :: from <= j && (r.Some? ==> j < r.value) ==> !OccursAt(hay, needle, j)
    decreases |hay| - from
  {
    if from + |needle| > |hay| then None
    else if OccursAt(hay, needle, from) then Some(from)
    else if from == |hay| then None
    else IndexOf(hay, needle, from + 1)
  }

  /** Non-overlapping hits of a whole-buffer search, leftmost first. */
  function WholeMatches<T(==)>(file: seq<T>, needle: seq<T>, from: nat): (a: seq<int>)
    requires |needle| > 0
    decreases |file| - from
  {
    match IndexOf(file, needle, from)
    case None => []
    case Some(i) => [i] + WholeMatches(file, needle, i + |needle|)
  }

  // ---------- The streaming scan ----------

  function Last(a: seq<int>, needleLength: nat, next: int): int {
    if a == [] then next else a[|a| - 1] + needleLength
  }

  /** Positions counted in one carry+chunk buffer that starts at file offset `base`. */
  function BufferMatches<T(==)>(combined: seq<T>, base: nat, needle: seq<T>, searchAt: nat, next: int): (a: seq<int>)
    requires |needle| > 0
    decreases |combined| - searchAt
  {
    match IndexOf(combined, needle, searchAt)
    case None => []
    case Some(found) =>
      if base + found >= next then
        [base + found] + BufferMatches(combined, base, needle, found + |needle|, base + found + |needle|)
      else
        BufferMatches(combined, base, needle, found + |needle|, next)
  }

  function Min(a: int, b: int): int { if a < b then a else b }

  function Suffix<T>(s: seq<T>, n: nat): seq<T> { s[|s| - Min(n, |s|)..] }

  /** Positions counted after one more chunk, given what was read and counted before it. */
  function AfterChunk<T(==)>(before: seq<int>, read: seq<T>, chunk: seq<T>, needle: seq<T>): seq<int>
    requires |needle| > 0
  {
    var carry := Suffix(read, |needle| - 1);
    before + BufferMatches(carry + chunk, |read| - |carry|, needle, 0, Last(before, |needle|, 0))
  }

  /** Positions counted after the first `k` chunks. */
  function MatchesAfter<T(==)>(chunks: seq<seq<T>>, k: nat, needle: seq<T>): (a: seq<int>)
    requires k <= |chunks| && |needle| > 0
  {
    if k == 0 then []
    else AfterChunk(MatchesAfter(chunks, k - 1, needle), Read(chunks, k - 1), chunks[k - 1], needle)
  }

  function StreamMatches<T(==)>(chunks: seq<seq<T>>, needle: seq<T>): seq<int>
    requires |needle| > 0
  {
    MatchesAfter(chunks, |chunks|, needle)
  }

  function Nth(a: seq<int>, occurrence: nat): Option<int>
    requires occurrence >= 1
  {
    if occurrence <= |a| then Some(a[occurrence - 1]) else None
  }

  /** The variables the scan keeps between chunks, and what they hold after `read` with `counted` hits. */
  datatype ScanState<T> =
    ScanState(carry: seq<T>, processed: nat, nextAllowedStart: int, matches: nat, selectedStart: Option<int>)

  ghost predicate Tracks<T>(s: ScanState<T>, read: seq<T>, counted: seq<int>, needle: seq<T>, occurrence: nat)
    requires |needle| > 0 && occurrence >= 1
  {
    && s.processed == |read| && s.carry == Suffix(read, |needle| - 1)
    && Counters(s.matches, s.nextAllowedStart, s.selectedStart, counted, |needle|, occurrence)
  }

  ghost predicate Counters(matches: int, next: int, selected: Option<int>, counted: seq<int>, width: nat, occurrence: nat)
    requires occurrence >= 1
  {
    matches == |counted| && next == Last(counted, width, 0) && selected == Nth(counted, occurrence)
  }

  /** The inner loop: searches one carry+chunk buffer and updates the three counters. */
  method ScanBuffer<T(==)>(combined: seq<T>, base: nat, needle: seq<T>, occurrence: nat, ghost counted: seq<int>,
                           matches0: nat, next0: int, selected0: Option<int>)
      returns (matches: nat, next: int, selected: Option<int>)
    requires |needle| > 0 && occurrence >= 1
    requires Counters(matches0, next0, selected0, counted, |needle|, occurrence)
    ensures Counters(matches, next, selected, counted + BufferMatches(combined, base, needle, 0, next0), |needle|, occurrence)
  {
    matches, next, selected := matches0, next0, selected0;
    ghost var seen: seq<int> := counted;
    var searchAt: nat := 0;
    while searchAt + |needle| <= |combined|
      invariant counted + BufferMatches(combined, base, needle, 0, next0)
             == seen + BufferMatches(combined, base, needle, searchAt, next)
      invariant Counters(matches, next, selected, seen, |needle|, occurrence)
      decreases |combined| - searchAt
    {
      var hit := IndexOf(combined, needle, searchAt);
      if hit.None? { break; }
      var absolute := base + hit.value;
      if absolute >= next {
        matches := matches + 1;
        if matches == occurrence { selected := Some(absolute); }
        next := absolute + |needle|;
        seen := seen + [absolute];
      }
      searchAt := hit.value + |needle|;
    }
  }

  lemma ChunkTracked<T>(s: ScanState<T>, chunk: seq<T>, needle: seq<T>, occurrence: nat, read: seq<T>, counted: seq<int>,
                        matches: nat, next: int, selected: Option<int>)
    requires |needle| > 0 && occurrence >= 1 && Tracks(s, read, counted, needle, occurrence) && |s.carry| <= s.processed
    requires var inBuffer := BufferMatches(s.carry + chunk, s.processed - |s.carry|, needle, 0, s.nextAllowedStart);
      Counters(matches, next, selected, counted + inBuffer, |needle|, occurrence)
    ensures Tracks(ScanState(Suffix(s.carry + chunk, |needle| - 1), s.processed + |chunk|, next, matches, selected),
                   read + chunk, AfterChunk(counted, read, chunk, needle), needle, occurrence)
  {
    SuffixOfSuffix(read, chunk, |needle| - 1);
  }

  method ReadChunk<T(==)>(s: ScanState<T>, chunk: seq<T>, needle: seq<T>, occurrence: nat,
                          ghost read: seq<T>, ghost counted: seq<int>) returns (after: ScanState<T>)
    requires |needle| > 0 && occurrence >= 1 && Tracks(s, read, counted, needle, occurrence)
    ensures Tracks(after, read + chunk, AfterChunk(counted, read, chunk, needle), needle, occurrence)
  {
    var combined := if |s.carry| > 0 then s.carry + chunk else chunk;
    assert combined == s.carry + chunk;
    var matches, next, selected := ScanBuffer(combined, s.processed - |s.carry|, needle, occurrence, counted,
      s.matches, s.nextAllowedStart, s.selectedStart);
    ChunkTracked(s, chunk, needle, occurrence, read, counted, matches, next, selected);
    after := ScanState(Suffix(combined, |needle| - 1), s.processed + |chunk|, next, matches, selected);
  }

  /** The outer loop over the chunks of the read stream. */
  method Scan<T(==)>(chunks: seq<seq<T>>, needle: seq<T>, occurrence: nat)
      returns (matches: nat, selectedStart: Option<int>)
    requires |needle| > 0 && occurrence >= 1
    ensures matches == |StreamMatches(chunks, needle)|
    ensures selectedStart == Nth(StreamMatches(chunks, needle), occurrence)
  {
    var s: ScanState<T> := ScanState([], 0, 0, 0, None);
    for k := 0 to |chunks|
      invariant Tracks(s, Read(chunks, k), MatchesAfter(chunks, k, needle), needle, occurrence)
    {
      s := ReadChunk(s, chunks[k], needle, occurrence, Read(chunks, k), MatchesAfter(chunks, k, needle));
    }
    return s.matches, s.selectedStart;
  }

  lemma SuffixOfSuffix<T>(read: seq<T>, chunk: seq<T>, n: nat)
    ensures Suffix(Suffix(read, n) + chunk, n) == Suffix(read + chunk, n)
  {
  }

  // ---------- When the two agree ----------

  /** A border: a proper non-empty prefix of the needle that is also a suffix. */
  ghost predicate BorderAt<T>(needle: seq<T>, shift: nat) {
    0 < shift < |needle| && needle[shift..] == needle[..|needle| - shift]
  }

  ghost predicate Bordered<T>(needle: seq<T>) {
    exists shift: nat :: BorderAt(needle, shift)
  }

  ghost predicate HitsDisjoint<T>(file: seq<T>, needle: seq<T>) {
    forall i, j :: OccursAt(file, needle, i) && OccursAt(file, needle, j) && i < j ==> i + |needle| <= j
  }

  /** `a` lists, in ascending order, all hits of `needle` in `file` that start at or after `from`. */
  ghost predicate ListsHits<T>(a: seq<int>, file: seq<T>, needle: seq<T>, from: int) {
    && (forall x, y :: 0 <= x < y < |a| ==> a[x] < a[y])
    && (forall i :: i in a <==> from <= i && OccursAt(file, needle, i))
  }

  lemma OverlapIsBorder<T>(file: seq<T>, needle: seq<T>, i: int, j: int)
    requires OccursAt(file, needle, i) && OccursAt(file, needle, j) && i < j < i + |needle|
    ensures BorderAt(needle, j - i)
  {
    forall k | 0 <= k < |needle| - (j - i) ensures needle[j - i + k] == needle[k] {
      assert file[i + (j - i + k)] == file[j + k];
    }
  }

  lemma {:induction false} ListUnique<T>(a: seq<int>, b: seq<int>, file: seq<T>, needle: seq<T>, from: int)
    requires ListsHits(a, file, needle, from) && ListsHits(b, file, needle, from)
    ensures a == b
    decreases |a|
  {
    assert b != [] ==> b[0] in b && b[0] in a;
    if a != [] {
      assert a[0] in a && a[0] in b;
      assert a[0] == b[0];
      ListTail(a, file, needle, from);
      ListTail(b, file, needle, from);
      ListUnique(a[1..], b[1..], file, needle, a[0] + 1);
    }
  }

  lemma ListTail<T>(a: seq<int>, file: seq<T>, needle: seq<T>, from: int)
    requires a != [] && ListsHits(a, file, needle, from)
    ensures ListsHits(a[1..], file, needle, a[0] + 1)
  {
    assert a == [a[0]] + a[1..];
    assert a[0] in a;
    forall i ensures i in a[1..] <==> a[0] + 1 <= i && OccursAt(file, needle, i) {
      if i in a[1..] { var k :| 0 <= k < |a[1..]| && a[1..][k] == i; assert a[k + 1] == i; assert i in a; }
      if a[0] + 1 <= i && OccursAt(file, needle, i) { assert i in a; }
    }
  }

  lemma {:induction false} WholeListsHits<T>(file: seq<T>, needle: seq<T>, from: nat)
    requires |needle| > 0 && HitsDisjoint(file, needle)
    ensures ListsHits(WholeMatches(file, needle, from), file, needle, from)
    decreases |file| - from
  {
    var hit := IndexOf(file, needle, from);
    if hit.Some? {
      WholeListsHits(file, needle, hit.value + |needle|);
      var rest := WholeMatches(file, needle, hit.value + |needle|);
      forall i ensures i in [hit.value] + rest <==> from <= i && OccursAt(file, needle, i) {
        if i > hit.value && OccursAt(file, needle, i) { assert i in rest; }
      }
      forall y | 0 <= y < |rest| ensures hit.value < rest[y] { assert rest[y] in rest; }
    }
  }

  /** `a` lists, in ascending file positions, the hits of one buffer that starts at `base`. */
  ghost predicate ListsBufferHits<T>(a: seq<int>, combined: seq<T>, base: nat, needle: seq<T>, from: int) {
    && (forall x, y :: 0 <= x < y < |a| ==> a[x] < a[y])
    && (forall i :: i in a <==> base + from <= i && OccursAt(combined, needle, i - base))
  }

  /** In one buffer, when hits are disjoint and none starts before `next`, every hit is counted. */
  lemma {:induction false} BufferCountsAll<T>(combined: seq<T>, base: nat, needle: seq<T>, searchAt: nat, next: int)
    requires |needle| > 0 && HitsDisjoint(combined, needle)
    requires forall i :: searchAt <= i && OccursAt(combined, needle, i) ==> next <= base + i
    ensures ListsBufferHits(BufferMatches(combined, base, needle, searchAt, next), combined, base, needle, searchAt)
    decreases |combined| - searchAt
  {
    var hit := IndexOf(combined, needle, searchAt);
    if hit.Some? {
      var first := base + hit.value;
      BufferCountsAll(combined, base, needle, hit.value + |needle|, first + |needle|);
      var rest := BufferMatches(combined, base, needle, hit.value + |needle|, first + |needle|);
      forall i ensures i in [first] + rest <==> base + searchAt <= i && OccursAt(combined, needle, i - base) {
        if base + searchAt <= i && OccursAt(combined, needle, i - base) && i > first { assert i in rest; }
      }
      forall y | 0 <= y < |rest| ensures first < rest[y] { assert rest[y] in rest; }
    }
  }

  lemma HitsInSuffix<T>(file: seq<T>, base: nat, needle: seq<T>)
    requires base <= |file|
    ensures forall i :: base <= i ==> (OccursAt(file, needle, i) <==> OccursAt(file[base..], needle, i - base))
    ensures HitsDisjoint(file, needle) ==> HitsDisjoint(file[base..], needle)
  {
    forall i | base <= i ensures OccursAt(file, needle, i) <==> OccursAt(file[base..], needle, i - base) {
      assert OccursAt(file[base..], needle, i - base) ==> forall k :: 0 <= k < |needle| ==> file[i + k] == needle[k] by {
        assert forall x :: 0 <= x < |file| - base ==> file[base..][x] == file[base + x];
      }
    }
    forall i, j | HitsDisjoint(file, needle) && OccursAt(file[base..], needle, i) && OccursAt(file[base..], needle, j) && i < j
      ensures i + |needle| <= j
    {
      assert OccursAt(file, needle, base + i) && OccursAt(file, needle, base + j);
    }
  }

  lemma HitsInPrefix<T>(read: seq<T>, chunk: seq<T>, needle: seq<T>)
    ensures forall i :: OccursAt(read, needle, i) <==> OccursAt(read + chunk, needle, i) && i + |needle| <= |read|
    ensures HitsDisjoint(read + chunk, needle) ==> HitsDisjoint(read, needle)
  {
  }

  /** Whatever the chunks are, the scan counts exactly the hits, provided hits do not overlap. */
  lemma {:induction false} StreamListsHits<T>(chunks: seq<seq<T>>, k: nat, needle: seq<T>)
    requires |needle| > 0 && k <= |chunks| && HitsDisjoint(Read(chunks, k), needle)
    ensures ListsHits(MatchesAfter(chunks, k, needle), Read(chunks, k), needle, 0)
  {
    if k > 0 {
      HitsInPrefix(Read(chunks, k - 1), chunks[k - 1], needle);
      StreamListsHits(chunks, k - 1, needle);
      ChunkListsHits(Read(chunks, k - 1), chunks[k - 1], needle, MatchesAfter(chunks, k - 1, needle));
    }
  }

  lemma ChunkListsHits<T>(read: seq<T>, chunk: seq<T>, needle: seq<T>, before: seq<int>)
    requires |needle| > 0 && HitsDisjoint(read + chunk, needle) && ListsHits(before, read, needle, 0)
    ensures ListsHits(AfterChunk(before, read, chunk, needle), read + chunk, needle, 0)
  {
    hide BufferMatches;
    var carry := Suffix(read, |needle| - 1);
    var base, next := |read| - |carry|, Last(before, |needle|, 0);
    SuffixThenChunk(read, chunk, |needle| - 1);
    HitsInSuffix(read + chunk, base, needle);
    HitsInPrefix(read, chunk, needle);
    NoneBeforeNext(read, chunk, needle, before);
    BufferCountsAll(carry + chunk, base, needle, 0, next);
    JoinHits(read + chunk, carry + chunk, base, |read|, needle, before, BufferMatches(carry + chunk, base, needle, 0, next));
  }

  /** No hit of the buffer starts before the end of the last one counted. */
  lemma NoneBeforeNext<T>(read: seq<T>, chunk: seq<T>, needle: seq<T>, before: seq<int>)
    requires |needle| > 0 && HitsDisjoint(read + chunk, needle) && ListsHits(before, read, needle, 0)
    ensures var carry := Suffix(read, |needle| - 1);
      forall i :: 0 <= i && OccursAt(carry + chunk, needle, i) ==> Last(before, |needle|, 0) <= |read| - |carry| + i
  {
    hide OccursAt;
    var carry := Suffix(read, |needle| - 1);
    var base := |read| - |carry|;
    SuffixThenChunk(read, chunk, |needle| - 1);
    HitsInSuffix(read + chunk, base, needle);
    HitsInPrefix(read, chunk, needle);
    forall i | 0 <= i && OccursAt(carry + chunk, needle, i) ensures Last(before, |needle|, 0) <= base + i {
      assert OccursAt(read + chunk, needle, base + i);
      if before != [] { assert before[|before| - 1] in before; }
    }
  }

  lemma SuffixThenChunk<T>(read: seq<T>, chunk: seq<T>, n: nat)
    ensures Suffix(read, n) + chunk == (read + chunk)[|read| - |Suffix(read, n)|..]
  {
  }

  /** Hits that end in what was read, then those of the buffer: together the hits of the file. */
  lemma JoinHits<T>(file: seq<T>, buffer: seq<T>, base: nat, readSize: nat, needle: seq<T>, before: seq<int>,
                    inBuffer: seq<int>)
    requires HitsDisjoint(file, needle) && base <= readSize < base + |needle| && |needle| > 0
    requires base == 0 || base + |needle| == readSize + 1
    requires forall x, y :: 0 <= x < y < |before| ==> before[x] < before[y]
    requires forall i :: i in before <==> 0 <= i && OccursAt(file, needle, i) && i + |needle| <= readSize
    requires forall i :: base <= i ==> (OccursAt(file, needle, i) <==> OccursAt(buffer, needle, i - base))
    requires ListsBufferHits(inBuffer, buffer, base, needle, 0)
    ensures ListsHits(before + inBuffer, file, needle, 0)
  {
    forall x, y | 0 <= x < |before| && 0 <= y < |inBuffer| ensures before[x] < inBuffer[y] {
      assert before[x] in before && inBuffer[y] in inBuffer;
    }
    forall i ensures i in before + inBuffer <==> 0 <= i && OccursAt(file, needle, i) {
    }
  }

  /** Per file: when no two hits overlap, no choice of chunks changes the count or any position. */
  lemma StreamRefinesWhole<T>(chunks: seq<seq<T>>, needle: seq<T>)
    requires |needle| > 0 && HitsDisjoint(Flatten(chunks), needle)
    ensures StreamMatches(chunks, needle) == WholeMatches(Flatten(chunks), needle, 0)
  {
    StreamListsHits(chunks, |chunks|, needle);
    WholeListsHits(Flatten(chunks), needle, 0);
    ListUnique(StreamMatches(chunks, needle), WholeMatches(Flatten(chunks), needle, 0), Flatten(chunks), needle, 0);
  }

  lemma UnborderedHitsDisjoint<T>(file: seq<T>, needle: seq<T>)
    requires !Bordered(needle)
    ensures HitsDisjoint(file, needle)
  {
    forall i, j | OccursAt(file, needle, i) && OccursAt(file, needle, j) && i < j ensures i + |needle| <= j {
      if j < i + |needle| { OverlapIsBorder(file, needle, i, j); }
    }
  }

  /** The file cut into reads of `size` bytes, the last one shorter. */
  function Chunks<T>(file: seq<T>, size: nat): (chunks: seq<seq<T>>)
    requires size > 0
  {
    if file == [] then []
    else if |file| <= size then [file]
    else [file[..size]] + Chunks(file[size..], size)
  }

  /** A text in which the needle occurs at 0, at `shift`, and next at `x`, the first multiple of `shift` past it. */
  lemma PeriodicText<T>(needle: seq<T>, shift: nat) returns (text: seq<T>, x: nat)
    requires BorderAt(needle, shift)
    ensures |text| == x + |needle| && |needle| <= x < |needle| + shift
    ensures OccursAt(text, needle, 0) && OccursAt(text, needle, shift) && OccursAt(text, needle, x)
  {
    text, x := needle, 0;
    while x < |needle|
      invariant |text| == x + |needle| && x < |needle| + shift
      invariant OccursAt(text, needle, 0) && OccursAt(text, needle, x)
      invariant x > 0 ==> OccursAt(text, needle, shift)
    {
      var longer := needle[..shift] + text;
      forall k | 0 <= k < |needle| ensures longer[k] == needle[k] {
        if k >= shift { assert needle[shift..][k - shift] == needle[..|needle| - shift][k - shift]; }
      }
      assert forall k :: 0 <= k < |needle| ==> longer[shift + k] == text[k];
      forall k | 0 <= k < |needle| ensures longer[x + shift + k] == needle[k] { assert text[x + k] == needle[k]; }
      text, x := longer, x + shift;
    }
  }

  /**
    For every needle with a border there is a file, read in pieces at least as long as the needle, in which the scan
    counts one hit and the whole-buffer search at least two: the rejected overlapping hit makes it skip a good one.
   */
  lemma BorderLosesHit<T>(needle: seq<T>) returns (file: seq<T>, size: nat)
    requires Bordered(needle)
    ensures size >= |needle|
    ensures |StreamMatches(Chunks(file, size), needle)| == 1 && |WholeMatches(file, needle, 0)| >= 2
  {
    var shift: nat :| BorderAt(needle, shift);
    var x;
    file, x := PeriodicText(needle, shift);
    size := shift + |needle| - 1;
    var m := |needle|;
    var head, tail := file[..size], file[size..];
    var chunks := Chunks(file, size);
    assert chunks == [head, tail] by { assert Chunks(tail, size) == [tail]; }
    assert IndexOf(file, needle, 0) == Some(0);
    assert IndexOf(file, needle, m).Some? by { assert OccursAt(file, needle, x); }
    FirstRead(head, needle, file);
    SecondRead(file, needle, shift, size, x);
    assert Read(chunks, 0) == [] && Read(chunks, 1) == head;
    assert MatchesAfter(chunks, 0, needle) == [];
    assert MatchesAfter(chunks, 1, needle) == [0];
  }

  lemma FirstRead<T>(head: seq<T>, needle: seq<T>, file: seq<T>)
    requires |needle| > 0 && |needle| <= |head| < 2 * |needle| && head <= file && OccursAt(file, needle, 0)
    ensures AfterChunk([], [], head, needle) == [0]
  {
    assert Suffix<T>([], |needle| - 1) + head == head;
    assert OccursAt(head, needle, 0);
    assert IndexOf(head, needle, 0) == Some(0) && IndexOf(head, needle, |needle|) == None;
    assert BufferMatches(head, 0, needle, |needle|, |needle|) == [];
  }

  lemma SecondRead<T>(file: seq<T>, needle: seq<T>, shift: nat, size: nat, x: nat)
    requires 0 < shift < |needle| && size == shift + |needle| - 1 && |file| == x + |needle|
    requires |needle| <= x < |needle| + shift && OccursAt(file, needle, shift)
    ensures AfterChunk([0], file[..size], file[size..], needle) == [0]
  {
    var combined := file[shift..];
    assert Suffix(file[..size], |needle| - 1) + file[size..] == combined;
    assert OccursAt(combined, needle, 0);
    assert IndexOf(combined, needle, 0) == Some(0) && IndexOf(combined, needle, |needle|) == None;
    assert BufferMatches(combined, shift, needle, 0, |needle|) == [];
  }

  /** The exact condition: the scan equals the whole-buffer search for all files and all chunkings iff no border. */
  lemma ChunkingIrrelevantIffUnbordered<T(!new)>(needle: seq<T>)
    requires |needle| > 0
    ensures (forall chunks: seq<seq<T>> :: StreamMatches(chunks, needle) == WholeMatches(Flatten(chunks), needle, 0))
        <==> !Bordered(needle)
  {
    if Bordered(needle) {
      var file, size := BorderLosesHit(needle);
      ChunksFlatten(file, size);
      assert StreamMatches(Chunks(file, size), needle) != WholeMatches(Flatten(Chunks(file, size)), needle, 0);
    } else {
      forall chunks: seq<seq<T>> ensures StreamMatches(chunks, needle) == WholeMatches(Flatten(chunks), needle, 0) {
        UnborderedHitsDisjoint(Flatten(chunks), needle);
        StreamRefinesWhole(chunks, needle);
      }
    }
  }

  lemma {:induction false} ChunksFlatten<T>(file: seq<T>, size: nat)
    requires size > 0
    ensures Flatten(Chunks(file, size)) == file
    decreases |file|
  {
    var chunks := Chunks(file, size);
    if |file| > size {
      ChunksFlatten(file[size..], size);
      ReadCons(chunks, Chunks(file[size..], size), |chunks| - 1);
    } else if file != [] {
      assert Read([file], 0) == [] && Read([file], 1) == file;
    }
  }

  // ---------- What always holds ----------

  /** `a` lists genuine hits, each starting at or after the end of the one before it. */
  ghost predicate DisjointHits<T>(a: seq<int>, file: seq<T>, needle: seq<T>) {
    && (forall x :: 0 <= x < |a| ==> OccursAt(file, needle, a[x]))
    && (forall x, y :: 0 <= x < y < |a| ==> a[x] + |needle| <= a[y])
  }

  lemma {:induction false} BufferSound<T>(combined: seq<T>, base: nat, needle: seq<T>, searchAt: nat, next: int,
                                          file: seq<T>)
    requires |needle| > 0 && base <= |file| && combined == file[base..]
    ensures DisjointHits(BufferMatches(combined, base, needle, searchAt, next), file, needle)
    ensures forall i :: i in BufferMatches(combined, base, needle, searchAt, next) ==> next <= i
    decreases |combined| - searchAt
  {
    var hit := IndexOf(combined, needle, searchAt);
    if hit.Some? {
      HitsInSuffix(file, base, needle);
      var first := base + hit.value;
      assert OccursAt(file, needle, first);
      var next' := if first >= next then first + |needle| else next;
      BufferSound(combined, base, needle, hit.value + |needle|, next', file);
      var rest := BufferMatches(combined, base, needle, hit.value + |needle|, next');
      forall y | 0 <= y < |rest| ensures next' <= rest[y] { assert rest[y] in rest; }
    }
  }

  lemma ChunkSound<T>(read: seq<T>, chunk: seq<T>, needle: seq<T>, before: seq<int>)
    requires |needle| > 0 && DisjointHits(before, read, needle)
    ensures DisjointHits(AfterChunk(before, read, chunk, needle), read + chunk, needle)
  {
    HitsInPrefix(read, chunk, needle);
    var carry := Suffix(read, |needle| - 1);
    var base, next := |read| - |carry|, Last(before, |needle|, 0);
    BufferSound(carry + chunk, base, needle, 0, next, read + chunk);
    var inBuffer := BufferMatches(carry + chunk, base, needle, 0, next);
    forall y | 0 <= y < |inBuffer| ensures next <= inBuffer[y] { assert inBuffer[y] in inBuffer; }
  }

  /** With or without a border, whatever is counted is a real hit and no two counted hits overlap. */
  lemma {:induction false} StreamSound<T>(chunks: seq<seq<T>>, k: nat, needle: seq<T>)
    requires |needle| > 0 && k <= |chunks|
    ensures DisjointHits(MatchesAfter(chunks, k, needle), Read(chunks, k), needle)
  {
    if k > 0 {
      StreamSound(chunks, k - 1, needle);
      ChunkSound(Read(chunks, k - 1), chunks[k - 1], needle, MatchesAfter(chunks, k - 1, needle));
    }
  }

  // ---------- The selector ----------

  datatype AnchorError = AnchorInvalid | MatchCount | OccurrenceMissing

  datatype Range = Range(startByte: int, endByte: int)

  /** What the selector answers for a list of counted positions. */
  function Select(positions: seq<int>, needleLength: nat, occurrence: int, expected: int, includeAnchor: bool)
    : Result<Range, AnchorError>
  {
    if needleLength == 0 || occurrence < 1 || expected < 1 then Err(AnchorInvalid)
    else if |positions| != expected then Err(MatchCount)
    else if occurrence > |positions| then Err(OccurrenceMissing)
    else
      var start, end := positions[occurrence - 1], positions[occurrence - 1] + needleLength;
      if includeAnchor then Ok(Range(start, end)) else Ok(Range(end, end))
  }

  method ResolveAnchor<T(==)>(chunks: seq<seq<T>>, needle: seq<T>, occurrence: int, expected: int, includeAnchor: bool)
      returns (r: Result<Range, AnchorError>)
    ensures |needle| == 0 ==> r == Err(AnchorInvalid)
    ensures |needle| > 0 ==> r == Select(StreamMatches(chunks, needle), |needle|, occurrence, expected, includeAnchor)
    ensures |needle| > 0 && HitsDisjoint(Flatten(chunks), needle) ==>
      r == Select(WholeMatches(Flatten(chunks), needle, 0), |needle|, occurrence, expected, includeAnchor)
  {
    if |needle| == 0 || occurrence < 1 || expected < 1 { return Err(AnchorInvalid); }
    var matches, selectedStart := Scan(chunks, needle, occurrence);
    ghost var disjoint := HitsDisjoint(Flatten(chunks), needle);
    if disjoint { StreamRefinesWhole(chunks, needle); }
    if matches != expected { return Err(MatchCount); }
    if selectedStart.None? { return Err(OccurrenceMissing); }
    var selectedEnd := selectedStart.value + |needle|;
    return Ok(if includeAnchor then Range(selectedStart.value, selectedEnd) else Range(selectedEnd, selectedEnd));
  }
}
