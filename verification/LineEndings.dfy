/**
  Adapting inserted content to the dominant line ending of the target file. Content arrives in chunks; a CR that ends a
  chunk is held back until the next character shows whether it is half of a CRLF. The reference splits the whole text
  into lines and joins them with the chosen ending. Text is modelled by its UTF-8 bytes.
 */
module LineEndings {
  import opened Results
  import opened Streams
  import opened Utf8

  const CR: byte := 0x0D
  const LF: byte := 0x0A

  predicate IsEol(eol: seq<byte>) { eol == [CR, LF] || eol == [LF] || eol == [CR] }

  // ---------- Whole-text reference ----------

  /** The lines of a text, without their endings; CR LF, CR and LF each end one line. */
  function SplitLines(s: seq<byte>): (lines: seq<seq<byte>>)
    ensures |lines| > 0
    decreases |s|
  {
    if s == [] then [[]]
    else if s[0] == CR && |s| > 1 && s[1] == LF then [[]] + SplitLines(s[2..])
    else if s[0] == CR || s[0] == LF then [[]] + SplitLines(s[1..])
    else var rest := SplitLines(s[1..]); [[s[0]] + rest[0]] + rest[1..]
  }

  function JoinLines(lines: seq<seq<byte>>, eol: seq<byte>): seq<byte>
    requires |lines| > 0
  {
    if |lines| == 1 then lines[0] else lines[0] + eol + JoinLines(lines[1..], eol)
  }

  // ---------- The streaming normaliser ----------

  function If(b: bool, s: seq<byte>): seq<byte> { if b then s else [] }

  function EmitByte(pendingCr: bool, b: byte, eol: seq<byte>): seq<byte> {
    if b == LF then eol else If(pendingCr, eol) + If(b != CR, [b])
  }

  /** Output for `s` when a CR may be pending; a final CR stays pending. */
  function Emit(pendingCr: bool, s: seq<byte>, eol: seq<byte>): seq<byte>
    decreases |s|
  {
    if s == [] then [] else EmitByte(pendingCr, s[0], eol) + Emit(s[0] == CR, s[1..], eol)
  }

  function Pending(pendingCr: bool, s: seq<byte>): bool {
    if s == [] then pendingCr else s[|s| - 1] == CR
  }

  function Normalize(s: seq<byte>, eol: seq<byte>): seq<byte> {
    Emit(false, s, eol) + If(Pending(false, s), eol)
  }

  lemma {:induction false} EmitConcat(pendingCr: bool, s: seq<byte>, t: seq<byte>, eol: seq<byte>)
    ensures Emit(pendingCr, s + t, eol) == Emit(pendingCr, s, eol) + Emit(Pending(pendingCr, s), t, eol)
    decreases |s|
  {
    if s == [] {
      assert s + t == t;
    } else {
      assert (s + t)[1..] == s[1..] + t;
      EmitConcat(s[0] == CR, s[1..], t, eol);
      Assoc(EmitByte(pendingCr, s[0], eol), Emit(s[0] == CR, s[1..], eol), Emit(Pending(pendingCr, s), t, eol));
    }
  }

  datatype ContentError = InvalidUtf8

  /** The loop over the characters of one chunk. */
  method NormalizeChunk(chunk: seq<byte>, pendingCr: bool, eol: seq<byte>) returns (output: seq<byte>, pending: bool)
    ensures output == Emit(pendingCr, chunk, eol) && pending == Pending(pendingCr, chunk)
  {
    output, pending := [], pendingCr;
    for i := 0 to |chunk|
      invariant output == Emit(pendingCr, chunk[..i], eol) && pending == Pending(pendingCr, chunk[..i])
    {
      assert chunk[..i + 1] == chunk[..i] + [chunk[i]];
      EmitConcat(pendingCr, chunk[..i], [chunk[i]], eol);
      assert Emit(pending, [chunk[i]], eol) == EmitByte(pending, chunk[i], eol);
      if pending {
        output := output + eol;
        pending := false;
        if chunk[i] == LF { continue; }
      }
      if chunk[i] == CR { pending := true; }
      else if chunk[i] == LF { output := output + eol; }
      else { output := output + [chunk[i]]; }
    }
    assert chunk[..|chunk|] == chunk;
  }

  predicate AllValid(chunks: seq<seq<byte>>) { forall k :: 0 <= k < |chunks| ==> Valid(chunks[k]) }

  datatype Generator = Generator(output: seq<byte>, pending: bool)

  /** What the generator has yielded, and whether a CR is held back, after `k` valid chunks. */
  ghost predicate Tracks(g: Generator, chunks: seq<seq<byte>>, k: nat, eol: seq<byte>) {
    && k <= |chunks| && (forall j :: 0 <= j < k ==> Valid(chunks[j]))
    && g == Generator(Emit(false, Read(chunks, k), eol), Pending(false, Read(chunks, k)))
  }

  method AppendChunk(g: Generator, chunks: seq<seq<byte>>, k: nat, eol: seq<byte>) returns (after: Option<Generator>)
    requires k < |chunks| && Tracks(g, chunks, k, eol)
    ensures if Valid(chunks[k]) then after.Some? && Tracks(after.value, chunks, k + 1, eol) else after == None
  {
    if !Valid(chunks[k]) { return None; }
    var more, pending := NormalizeChunk(chunks[k], g.pending, eol);
    EmitNextChunk(chunks, k, eol);
    return Some(Generator(g.output + more, pending));
  }

  lemma EmitNextChunk(chunks: seq<seq<byte>>, k: nat, eol: seq<byte>)
    requires k < |chunks|
    ensures var pending := Pending(false, Read(chunks, k));
      && Emit(false, Read(chunks, k + 1), eol) == Emit(false, Read(chunks, k), eol) + Emit(pending, chunks[k], eol)
      && Pending(false, Read(chunks, k + 1)) == Pending(pending, chunks[k])
  {
    EmitConcat(false, Read(chunks, k), chunks[k], eol);
  }

  lemma Finished(g: Generator, chunks: seq<seq<byte>>, eol: seq<byte>)
    requires Tracks(g, chunks, |chunks|, eol)
    ensures AllValid(chunks) && g.output + If(g.pending, eol) == Normalize(Flatten(chunks), eol)
  {
  }

  /** What is yielded is the normalised concatenation, wherever the chunks are cut, CR LF pairs included. */
  method NormalizeLineEndings(chunks: seq<seq<byte>>, eol: seq<byte>) returns (r: Result<seq<byte>, ContentError>)
    ensures r == if AllValid(chunks) then Ok(Normalize(Flatten(chunks), eol)) else Err(InvalidUtf8)
  {
    var g := Generator([], false);
    for k := 0 to |chunks|
      invariant Tracks(g, chunks, k, eol)
    {
      var next := AppendChunk(g, chunks, k, eol);
      if next.None? { return Err(InvalidUtf8); }
      g := next.value;
    }
    Finished(g, chunks, eol);
    return Ok(g.output + If(g.pending, eol));
  }

  // ---------- Refinement of the reference ----------

  /** What follows a CR once a possible LF is taken with it. */
  function AfterCr(s: seq<byte>): seq<byte> { if s != [] && s[0] == LF then s[1..] else s }

  lemma JoinCons(lines: seq<seq<byte>>, b: byte, eol: seq<byte>)
    requires |lines| > 0
    ensures JoinLines([[]] + lines, eol) == eol + JoinLines(lines, eol)
    ensures JoinLines([[b] + lines[0]] + lines[1..], eol) == [b] + JoinLines(lines, eol)
  {
    assert ([[]] + lines)[1..] == lines && [] + eol == eol;
    var longer := [[b] + lines[0]] + lines[1..];
    assert longer[1..] == lines[1..];
    assert |lines| > 1 ==> [b] + lines[0] + eol + JoinLines(lines[1..], eol) == [b] + (lines[0] + eol + JoinLines(lines[1..], eol));
  }

  /** Output for `s` with the final CR, if any, written out. */
  function Flush(pendingCr: bool, s: seq<byte>, eol: seq<byte>): seq<byte> {
    Emit(pendingCr, s, eol) + If(Pending(pendingCr, s), eol)
  }

  lemma FlushCons(pendingCr: bool, s: seq<byte>, eol: seq<byte>)
    requires s != []
    ensures Flush(pendingCr, s, eol) == EmitByte(pendingCr, s[0], eol) + Flush(s[0] == CR, s[1..], eol)
  {
    Assoc(EmitByte(pendingCr, s[0], eol), Emit(s[0] == CR, s[1..], eol), If(Pending(pendingCr, s), eol));
  }

  /** A pending CR is written out and takes a following LF with it. */
  lemma FlushPending(s: seq<byte>, eol: seq<byte>)
    ensures Flush(true, s, eol) == eol + Flush(false, AfterCr(s), eol)
  {
    if s != [] {
      FlushCons(true, s, eol);
      FlushCons(false, s, eol);
      Assoc(eol, If(s[0] != CR, [s[0]]), Flush(s[0] == CR, s[1..], eol));
      assert s[0] != LF ==> EmitByte(false, s[0], eol) == If(s[0] != CR, [s[0]]);
    } else {
      assert Flush(true, s, eol) == eol;
    }
  }

  lemma FlushCr(s: seq<byte>, eol: seq<byte>)
    requires s != [] && s[0] == CR
    ensures Flush(false, s, eol) == eol + Flush(false, AfterCr(s[1..]), eol)
  {
    FlushCons(false, s, eol);
    FlushPending(s[1..], eol);
    assert EmitByte(false, CR, eol) == [];
  }

  lemma NothingFlushed(eol: seq<byte>)
    ensures Flush(false, [], eol) == JoinLines(SplitLines([]), eol)
  {
  }

  lemma {:induction false} FlushJoins(s: seq<byte>, eol: seq<byte>)
    ensures Flush(false, s, eol) == JoinLines(SplitLines(s), eol)
    decreases |s|
  {
    hide Flush, JoinLines;
    if s == [] {
      NothingFlushed(eol);
    } else {
      if s[0] == CR {
        var rest := AfterCr(s[1..]);
        FlushCr(s, eol);
        FlushJoins(rest, eol);
        JoinCons(SplitLines(rest), CR, eol);
        assert rest == if |s| > 1 && s[1] == LF then s[2..] else s[1..];
      } else {
        FlushCons(false, s, eol);
        FlushJoins(s[1..], eol);
        JoinCons(SplitLines(s[1..]), s[0], eol);
      }
    }
  }

  /** Normalising is splitting into lines and joining them with the chosen ending. */
  lemma NormalizeJoinsLines(s: seq<byte>, eol: seq<byte>)
    ensures Normalize(s, eol) == JoinLines(SplitLines(s), eol)
  {
    FlushJoins(s, eol);
  }

  predicate NoEndings(line: seq<byte>) { forall k :: 0 <= k < |line| ==> line[k] != CR && line[k] != LF }

  lemma {:induction false} LinesHaveNoEndings(s: seq<byte>)
    ensures forall k :: 0 <= k < |SplitLines(s)| ==> NoEndings(SplitLines(s)[k])
    decreases |s|
  {
    if s != [] {
      if s[0] == CR && |s| > 1 && s[1] == LF { LinesHaveNoEndings(s[2..]); } else { LinesHaveNoEndings(s[1..]); }
    }
  }

  lemma {:induction false} SplitLineThenRest(line: seq<byte>, rest: seq<byte>)
    requires NoEndings(line)
    ensures var lines := SplitLines(rest); SplitLines(line + rest) == [line + lines[0]] + lines[1..]
    decreases |line|
  {
    if line == [] {
      assert line + rest == rest;
      assert line + SplitLines(rest)[0] == SplitLines(rest)[0];
    } else {
      assert (line + rest)[1..] == line[1..] + rest;
      SplitLineThenRest(line[1..], rest);
      assert [line[0]] + (line[1..] + SplitLines(rest)[0]) == line + SplitLines(rest)[0];
    }
  }

  lemma {:induction false} SplitJoined(lines: seq<seq<byte>>, eol: seq<byte>)
    requires |lines| > 0 && IsEol(eol) && forall k :: 0 <= k < |lines| ==> NoEndings(lines[k])
    ensures SplitLines(JoinLines(lines, eol)) == lines
  {
    if |lines| == 1 {
      assert lines[0] + [] == lines[0];
      SplitLineThenRest(lines[0], []);
    } else {
      var rest := JoinLines(lines[1..], eol);
      SplitJoined(lines[1..], eol);
      NoLeadingLf(lines[1..], eol);
      SplitAtEol(lines[0], eol, rest);
      assert [lines[0]] + lines[1..] == lines;
    }
  }

  lemma SplitAtEol(line: seq<byte>, eol: seq<byte>, rest: seq<byte>)
    requires NoEndings(line) && IsEol(eol) && (rest != [] && rest[0] == LF ==> eol == [LF])
    ensures SplitLines(line + eol + rest) == [line] + SplitLines(rest)
  {
    assert (eol + rest)[|eol|..] == rest;
    assert SplitLines(eol + rest) == [[]] + SplitLines(rest);
    Assoc(line, eol, rest);
    SplitLineThenRest(line, eol + rest);
    assert line + [] == line && ([[]] + SplitLines(rest))[1..] == SplitLines(rest);
  }

  lemma NoLeadingLf(lines: seq<seq<byte>>, eol: seq<byte>)
    requires |lines| > 0 && IsEol(eol) && NoEndings(lines[0])
    ensures var s := JoinLines(lines, eol); s != [] && s[0] == LF ==> eol == [LF]
  {
  }

  /** The adapted text has exactly the lines of the original. */
  lemma LinesPreserved(s: seq<byte>, eol: seq<byte>)
    requires IsEol(eol)
    ensures SplitLines(Normalize(s, eol)) == SplitLines(s)
  {
    NormalizeJoinsLines(s, eol);
    LinesHaveNoEndings(s);
    SplitJoined(SplitLines(s), eol);
  }

  /** Adapting an adapted text changes nothing; in particular no CRLF is ever doubled. */
  lemma NormalizeIdempotent(s: seq<byte>, eol: seq<byte>, other: seq<byte>)
    requires IsEol(eol) && IsEol(other)
    ensures Normalize(Normalize(s, other), eol) == Normalize(s, eol)
  {
    LinesPreserved(s, other);
    NormalizeJoinsLines(s, eol);
    NormalizeJoinsLines(Normalize(s, other), eol);
  }

  lemma {:induction false} NormalizeValidFrom(pendingCr: bool, s: seq<byte>, eol: seq<byte>)
    requires Valid(s) && IsEol(eol)
    ensures Valid(Emit(pendingCr, s, eol))
    decreases |s|
  {
    if s != [] {
      var n := HeadLength(s);
      var head := s[..n];
      NormalizeValidFrom(Pending(pendingCr, head), s[n..], eol);
      assert s == head + s[n..];
      EmitConcat(pendingCr, head, s[n..], eol);
      EmitCharacter(pendingCr, s, eol);
      ValidConcat(Emit(pendingCr, head, eol), Emit(Pending(pendingCr, head), s[n..], eol));
    }
  }

  lemma EolValid(eol: seq<byte>)
    requires IsEol(eol)
    ensures Valid(eol)
  {
    assert [LF][1..] == [] && [CR][1..] == [] && [CR, LF][1..] == [LF];
  }

  lemma EmitCharacter(pendingCr: bool, s: seq<byte>, eol: seq<byte>)
    requires HeadLength(s) > 0 && IsEol(eol)
    ensures Valid(Emit(pendingCr, s[..HeadLength(s)], eol))
  {
    var head := s[..HeadLength(s)];
    HeadIsCharacter(s);
    EolValid(eol);
    if NoEndings(head) {
      EmitPlain(pendingCr, head, eol);
      ValidConcat(If(pendingCr, eol), head);
    } else {
      EmitOne(pendingCr, head[0], eol);
      assert head == [head[0]];
    }
  }

  lemma HeadIsCharacter(s: seq<byte>)
    requires HeadLength(s) > 0
    ensures var head := s[..HeadLength(s)]; Valid(head) && (|head| == 1 || NoEndings(head))
  {
    var n := HeadLength(s);
    HeadLocal(s, []);
    HeadBytes(s);
    assert s[..n][n..] == [];
  }

  lemma EmitOne(pendingCr: bool, b: byte, eol: seq<byte>)
    requires (b == LF || b == CR) && IsEol(eol)
    ensures Valid(Emit(pendingCr, [b], eol))
  {
    EolValid(eol);
    assert [b][1..] == [] && Emit(pendingCr, [b], eol) == EmitByte(pendingCr, b, eol);
  }

  lemma {:induction false} EmitPlain(pendingCr: bool, s: seq<byte>, eol: seq<byte>)
    requires s != [] && NoEndings(s)
    ensures Emit(pendingCr, s, eol) == If(pendingCr, eol) + s
    decreases |s|
  {
    if |s| > 1 {
      EmitPlain(false, s[1..], eol);
    } else {
      assert s[1..] == [];
    }
  }

  /** Adapting valid content gives valid content. */
  lemma NormalizeValid(s: seq<byte>, eol: seq<byte>)
    requires Valid(s) && IsEol(eol)
    ensures Valid(Normalize(s, eol))
  {
    NormalizeValidFrom(false, s, eol);
    EolValid(eol);
    ValidConcat(Emit(false, s, eol), If(Pending(false, s), eol));
  }
}
