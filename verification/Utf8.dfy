/**
  UTF-8 as section 4 of RFC 3629 defines it, the boundary test the selectors use (one byte is looked at, and it must
  not be a continuation byte), and a decoder that is fed the file chunk by chunk.
 */
module Utf8 {
  type byte = bv8

  // ---------- The grammar ----------

  /** UTF8-tail, written as the source tests it. */
  predicate IsTail(b: byte) { b & 0xC0 == 0x80 }

  predicate In(b: byte, lo: byte, hi: byte) { lo <= b <= hi }

  /** How many bytes follow the lead byte; None for a byte that starts no character. */
  function TailCount(lead: byte): (n: int)
    ensures -1 <= n <= 3
  {
    if lead <= 0x7F then 0
    else if In(lead, 0xC2, 0xDF) then 1
    else if In(lead, 0xE0, 0xEF) then 2
    else if In(lead, 0xF0, 0xF4) then 3
    else -1
  }

  /** The range of the first continuation byte depends on the lead byte (E0, ED, F0 and F4 are narrower). */
  function SecondLow(lead: byte): byte { if lead == 0xE0 then 0xA0 else if lead == 0xF0 then 0x90 else 0x80 }

  function SecondHigh(lead: byte): byte { if lead == 0xED then 0x9F else if lead == 0xF4 then 0x8F else 0xBF }

  /** Length of the UTF8-char production at the head of `s`, 0 when there is none. */
  function HeadLength(s: seq<byte>): (n: nat)
    ensures n <= |s| && n <= 4
  {
    if s == [] then 0
    else
      var tails := TailCount(s[0]);
      if tails < 0 || |s| <= tails then 0
      else if tails >= 1 && !In(s[1], SecondLow(s[0]), SecondHigh(s[0])) then 0
      else if tails >= 2 && !IsTail(s[2]) then 0
      else if tails >= 3 && !IsTail(s[3]) then 0
      else 1 + tails
  }

  /** UTF8-octets: a sequence of UTF8-char. */
  predicate Valid(s: seq<byte>) {
    s == [] || (HeadLength(s) > 0 && Valid(s[HeadLength(s)..]))
  }

  // ---------- Boundaries ----------

  /** The accepted offsets: 0, the file size, and any offset whose byte is not a continuation byte. */
  predicate Boundary(s: seq<byte>, i: int) {
    0 <= i <= |s| && (i == 0 || i == |s| || !IsTail(s[i]))
  }

  lemma HeadBytes(s: seq<byte>)
    requires HeadLength(s) > 0
    ensures !IsTail(s[0])
    ensures forall k :: 0 < k < HeadLength(s) ==> IsTail(s[k])
    ensures HeadLength(s) > 1 ==> s[0] >= 0x80
  {
  }

  /** The head production does not depend on what comes after it. */
  lemma HeadLocal(s: seq<byte>, t: seq<byte>)
    requires HeadLength(s) > 0
    ensures HeadLength(s + t) == HeadLength(s)
    ensures forall k :: HeadLength(s) <= k <= |s| ==> HeadLength(s[..k]) == HeadLength(s)
  {
  }

  lemma {:induction false} ValidConcat(s: seq<byte>, t: seq<byte>)
    requires Valid(s)
    ensures Valid(s + t) <==> Valid(t)
    decreases |s|
  {
    if s == [] {
      assert s + t == t;
    } else {
      var n := HeadLength(s);
      HeadLocal(s, t);
      assert (s + t)[n..] == s[n..] + t;
      ValidConcat(s[n..], t);
    }
  }

  /** For a valid file the one-byte test is exact: an offset passes iff it cuts the file into two valid parts. */
  lemma {:induction false} BoundaryIffBothValid(s: seq<byte>, i: nat)
    requires Valid(s) && i <= |s|
    ensures Boundary(s, i) <==> Valid(s[..i]) && Valid(s[i..])
    decreases |s|
  {
    if i == 0 || i == |s| {
      assert s[..|s|] == s && s[0..] == s;
    } else {
      var n := HeadLength(s);
      HeadBytes(s);
      if i < n {
        assert HeadLength(s[i..]) == 0;
      } else {
        BoundaryIffBothValid(s[n..], i - n);
        BehindHead(s, i);
      }
    }
  }

  /** An offset behind the first character says the same of the whole as of what follows that character. */
  lemma BehindHead(s: seq<byte>, i: nat)
    requires Valid(s) && s != [] && HeadLength(s) <= i < |s|
    ensures var n := HeadLength(s);
      && n > 0 && (Boundary(s, i) <==> Boundary(s[n..], i - n))
      && (Valid(s[..i]) <==> Valid(s[n..][..i - n])) && s[i..] == s[n..][i - n..]
  {
    hide HeadLength, IsTail, Valid, Boundary;
    BoundaryBehindHead(s, i);
    PrefixBehindHead(s, i);
  }

  lemma BoundaryBehindHead(s: seq<byte>, i: nat)
    requires Valid(s) && s != [] && HeadLength(s) <= i < |s|
    ensures HeadLength(s) > 0 && (Boundary(s, i) <==> Boundary(s[HeadLength(s)..], i - HeadLength(s)))
  {
    hide IsTail;
    var n := HeadLength(s);
    assert s[n..][i - n] == s[i];
    if i == n { AfterHead(s); }
  }

  lemma PrefixBehindHead(s: seq<byte>, i: nat)
    requires 0 < HeadLength(s) <= i <= |s|
    ensures Valid(s[..i]) <==> Valid(s[HeadLength(s)..][..i - HeadLength(s)])
    ensures s[i..] == s[HeadLength(s)..][i - HeadLength(s)..]
  {
    hide IsTail, HeadLength;
    PrefixHead(s, i);
    assert s[..i][HeadLength(s)..] == s[HeadLength(s)..][..i - HeadLength(s)];
  }

  lemma PrefixHead(s: seq<byte>, i: nat)
    requires 0 < HeadLength(s) <= i <= |s|
    ensures HeadLength(s[..i]) == HeadLength(s)
  {
  }

  lemma AfterHead(s: seq<byte>)
    requires Valid(s) && s != [] && HeadLength(s) < |s|
    ensures HeadLength(s) > 0 && Boundary(s, HeadLength(s))
  {
    HeadBytes(s);
    HeadBytes(s[HeadLength(s)..]);
  }

  /** Every slice between two accepted offsets of a valid file is valid. */
  lemma SliceValid(s: seq<byte>, i: nat, j: nat)
    requires Valid(s) && i <= j && Boundary(s, i) && Boundary(s, j)
    ensures Valid(s[..i]) && Valid(s[i..j]) && Valid(s[j..])
  {
    BoundaryIffBothValid(s, i);
    BoundaryIffBothValid(s, j);
    CutTwice(s, i, j);
    PrefixValid(s[i..], j - i, s[i..j]);
  }

  lemma PrefixValid(s: seq<byte>, i: nat, part: seq<byte>)
    requires Valid(s) && Boundary(s, i) && part == s[..i]
    ensures Valid(part)
  {
    BoundaryIffBothValid(s, i);
  }

  lemma CutTwice(s: seq<byte>, i: nat, j: nat)
    requires i <= j <= |s|
    ensures s[i..][..j - i] == s[i..j]
    ensures Boundary(s, j) ==> Boundary(s[i..], j - i)
  {
    assert s[i..][..j - i] == s[i..j];
  }

  /** Self-synchronisation: a valid, non-empty text can only occur in a valid file between two boundaries. */
  lemma HitOnBoundaries(file: seq<byte>, needle: seq<byte>, i: nat)
    requires Valid(file) && Valid(needle) && needle != []
    requires i + |needle| <= |file| && file[i..i + |needle|] == needle
    ensures Boundary(file, i) && Boundary(file, i + |needle|)
  {
    HeadBytes(needle);
    assert file[i] == needle[0] by { assert file[i] == file[i..i + |needle|][0]; }
    BoundaryIffBothValid(file, i);
    ValidUpToAndFrom(file[..i], needle, file[i + |needle|..], file, i);
    BoundaryIffBothValid(file, i + |needle|);
  }

  lemma ValidUpToAndFrom(before: seq<byte>, needle: seq<byte>, after: seq<byte>, file: seq<byte>, i: nat)
    requires i + |needle| <= |file| && file[i..i + |needle|] == needle
    requires before == file[..i] && after == file[i + |needle|..]
    requires Valid(before) && Valid(needle) && Valid(file[i..])
    ensures Valid(file[..i + |needle|]) && Valid(after)
  {
    Surroundings(file, needle, i);
    ValidConcat(needle, after);
    ValidConcat(before, needle);
  }

  lemma Surroundings(file: seq<byte>, needle: seq<byte>, i: nat)
    requires i + |needle| <= |file| && file[i..i + |needle|] == needle
    ensures file[i..] == needle + file[i + |needle|..] && file[..i + |needle|] == file[..i] + needle
  {
    assert file[i..] == file[i..i + |needle|] + file[i + |needle|..];
    assert file[..i + |needle|] == file[..i] + file[i..i + |needle|];
  }

  /** In a valid file the byte after an ASCII byte starts a character. */
  lemma {:induction false} AfterAscii(s: seq<byte>, i: nat)
    requires Valid(s) && 0 < i <= |s| && s[i - 1] < 0x80
    ensures Boundary(s, i)
    decreases |s|
  {
    var n := HeadLength(s);
    HeadBytes(s);
    assert forall k :: 0 <= k < n && n > 1 ==> s[k] >= 0x80;
    if i > n {
      assert s[n..][i - n - 1] == s[i - 1];
      AfterAscii(s[n..], i - n);
      if i < |s| { assert s[n..][i - n] == s[i]; }
    } else if i == n < |s| {
      HeadBytes(s[n..]);
    }
  }

  // ---------- The chunked decoder ----------

  /** Continuation bytes still needed, and the range the next one must lie in; Failed is absorbing. */
  datatype Decoder = Decoder(needed: nat, low: byte, high: byte) | Failed

  const START: Decoder := Decoder(0, 0x80, 0xBF)

  function Feed(d: Decoder, b: byte): Decoder {
    if d.Failed? then Failed
    else if d.needed == 0 then
      var tails := TailCount(b);
      if tails < 0 then Failed
      else if tails == 0 then START
      else Decoder(tails, SecondLow(b), SecondHigh(b))
    else if !In(b, d.low, d.high) then Failed
    else Decoder(d.needed - 1, 0x80, 0xBF)
  }

  function FeedAll(d: Decoder, s: seq<byte>): Decoder
    decreases |s|
  {
    if s == [] then d else FeedAll(Feed(d, s[0]), s[1..])
  }

  lemma {:induction false} FeedConcat(d: Decoder, s: seq<byte>, t: seq<byte>)
    ensures FeedAll(d, s + t) == FeedAll(FeedAll(d, s), t)
    decreases |s|
  {
    if s == [] {
      assert s + t == t;
    } else {
      assert (s + t)[1..] == s[1..] + t;
      FeedConcat(Feed(d, s[0]), s[1..], t);
    }
  }

  lemma {:induction false} FailedStays(s: seq<byte>)
    ensures FeedAll(Failed, s) == Failed
  {
    if s != [] { FailedStays(s[1..]); }
  }

  lemma FeedHead(s: seq<byte>)
    requires s != []
    ensures HeadLength(s) > 0 ==> FeedAll(START, s) == FeedAll(START, s[HeadLength(s)..])
    ensures HeadLength(s) == 0 ==> FeedAll(START, s) != START
  {
    FailedStays(s[1..]);
    var d1 := Feed(START, s[0]);
    if |s| > 1 && d1.Decoder? && d1.needed > 0 {
      assert FeedAll(d1, s[1..]) == FeedAll(Feed(d1, s[1]), s[1..][1..]);
      assert s[1..][1..] == s[2..];
      FailedStays(s[2..]);
      var d2 := Feed(d1, s[1]);
      if |s| > 2 && d2.Decoder? && d2.needed > 0 {
        assert FeedAll(d2, s[2..]) == FeedAll(Feed(d2, s[2]), s[2..][1..]);
        assert s[2..][1..] == s[3..];
        FailedStays(s[3..]);
        var d3 := Feed(d2, s[2]);
        if |s| > 3 && d3.Decoder? && d3.needed > 0 {
          assert FeedAll(d3, s[3..]) == FeedAll(Feed(d3, s[3]), s[3..][1..]);
          assert s[3..][1..] == s[4..];
          FailedStays(s[4..]);
        }
      }
    }
  }

  /** The decoder ends where it started exactly on the valid byte strings. */
  lemma {:induction false} DecoderAcceptsExactlyValid(s: seq<byte>)
    ensures FeedAll(START, s) == START <==> Valid(s)
    decreases |s|
  {
    if s != [] {
      FeedHead(s);
      if HeadLength(s) > 0 { DecoderAcceptsExactlyValid(s[HeadLength(s)..]); }
    }
  }
}
