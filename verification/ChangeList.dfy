/**
  How the list of changed files of detect_changes is normalised, stripped of duplicates, filtered by scope and bounded,
  with the counts that go with it. Paths are compared as on a case-sensitive platform.
 */
module ChangeList {
  const ITEM_LIMIT := 200

  /** The characters that trimming removes. */
  predicate IsSpace(c: char) {
    var u := c as int;
    9 <= u <= 13 || u in {0x20, 0xA0, 0x1680, 0x2028, 0x2029, 0x202F, 0x205F, 0x3000, 0xFEFF} || 0x2000 <= u <= 0x200A
  }

  function TrimStart(s: string): string { if s != "" && IsSpace(s[0]) then TrimStart(s[1..]) else s }

  function TrimEnd(s: string): string { if s != "" && IsSpace(s[|s| - 1]) then TrimEnd(s[..|s| - 1]) else s }

  function ForwardSlashes(s: string): string {
    seq(|s|, i requires 0 <= i < |s| => if s[i] == '\\' then '/' else s[i])
  }

  /** One leading "./" goes, not more. */
  function StripDot(s: string): string { if |s| >= 2 && s[0] == '.' && s[1] == '/' then s[2..] else s }

  function StripSlashes(s: string): string { if s != "" && s[|s| - 1] == '/' then StripSlashes(s[..|s| - 1]) else s }

  function Normalize(s: string): string { StripSlashes(StripDot(ForwardSlashes(TrimEnd(TrimStart(s))))) }

  /** The key duplicates are recognised by: the kept path is normalised a second time. */
  function Identity(s: string): string { Normalize(Normalize(s)) }

  predicate MatchesScope(file: string, scope: string) {
    var f, t := Normalize(file), Normalize(scope);
    f != "" && t != "" && (f == t || t + "/" <= f)
  }

  // ---------- What is kept ----------

  /** A native entry after normalisation: what would be returned, whether it is dropped as empty, its key, its scope. */
  datatype Entry<+T> = Entry(value: T, empty: bool, key: string, inScope: bool)

  /** The first non-empty entry with its key. */
  predicate Kept<T>(entries: seq<Entry<T>>, i: nat)
    requires i < |entries|
  {
    !entries[i].empty && forall j :: 0 <= j < i && !entries[j].empty ==> entries[j].key != entries[i].key
  }

  /** The kept entries among the first `k`, in order. */
  function Unique<T>(entries: seq<Entry<T>>, k: nat): seq<Entry<T>>
    requires k <= |entries|
  {
    if k == 0 then [] else if Kept(entries, k - 1) then Unique(entries, k - 1) + [entries[k - 1]] else Unique(entries, k - 1)
  }

  /** Empty entries and repetitions among the first `k`. */
  function Removed<T>(entries: seq<Entry<T>>, k: nat): nat
    requires k <= |entries|
  {
    if k == 0 then 0 else Removed(entries, k - 1) + if Kept(entries, k - 1) then 0 else 1
  }

  method RemoveDuplicates<T>(entries: seq<Entry<T>>) returns (unique: seq<Entry<T>>)
    ensures unique == Unique(entries, |entries|)
  {
    var seen: set<string> := {};
    unique := [];
    for k := 0 to |entries|
      invariant seen == set j | 0 <= j < k && !entries[j].empty :: entries[j].key
      invariant unique == Unique(entries, k)
    {
      if entries[k].empty { continue; }
      if entries[k].key in seen { continue; }
      seen := seen + {entries[k].key};
      unique := unique + [entries[k]];
    }
  }

  function InScope<T>(entries: seq<Entry<T>>, k: nat): seq<Entry<T>>
    requires k <= |entries|
  {
    if k == 0 then [] else if entries[k - 1].inScope then InScope(entries, k - 1) + [entries[k - 1]] else InScope(entries, k - 1)
  }

  function OutOfScope<T>(entries: seq<Entry<T>>, k: nat): nat
    requires k <= |entries|
  {
    if k == 0 then 0 else OutOfScope(entries, k - 1) + if entries[k - 1].inScope then 0 else 1
  }

  method FilterByScope<T>(entries: seq<Entry<T>>) returns (scoped: seq<Entry<T>>)
    ensures scoped == InScope(entries, |entries|)
  {
    scoped := [];
    for k := 0 to |entries|
      invariant scoped == InScope(entries, k)
    {
      if entries[k].inScope { scoped := scoped + [entries[k]]; }
    }
  }

  datatype Report<+T> = Report(nativeTotal: nat, duplicatesRemoved: int, normalizedTotal: nat, scopedTotal: nat,
                               returned: seq<Entry<T>>, omitted: int, truncated: bool)

  function Max(a: int, b: int): int { if a > b then a else b }

  function Min(a: int, b: int): int { if a < b then a else b }

  /** Duplicates out, scope filter, cut; the counts are computed by subtraction. */
  method Bound<T>(entries: seq<Entry<T>>) returns (r: Report<T>)
    ensures r == ReportOf(entries)
  {
    var unique := RemoveDuplicates(entries);
    RemovedIsCount(entries, |entries|);
    var scoped := FilterByScope(unique);
    var returned := scoped[..Min(|scoped|, ITEM_LIMIT)];
    return Report(|entries|, |entries| - |unique|, |unique|, |scoped|, returned, Max(0, |scoped| - |returned|), |scoped| > ITEM_LIMIT);
  }

  /** The report as it is meant: the removed entries are counted, and what is cut off is what the list lacks. */
  function ReportOf<T>(entries: seq<Entry<T>>): Report<T> {
    var unique := Unique(entries, |entries|);
    var scoped := InScope(unique, |unique|);
    var returned := scoped[..Min(|scoped|, ITEM_LIMIT)];
    Report(|entries|, Removed(entries, |entries|), |unique|, |scoped|, returned, |scoped[|returned|..]|, |returned| < |scoped|)
  }

  lemma {:induction false} RemovedIsCount<T>(entries: seq<Entry<T>>, k: nat)
    requires k <= |entries|
    ensures Removed(entries, k) + |Unique(entries, k)| == k
  {
    if k > 0 { RemovedIsCount(entries, k - 1); }
  }

  // ---------- Conservation ----------

  lemma {:induction false} ScopeCounts<T>(entries: seq<Entry<T>>, k: nat)
    requires k <= |entries|
    ensures OutOfScope(entries, k) + |InScope(entries, k)| == k
  {
    if k > 0 { ScopeCounts(entries, k - 1); }
  }

  /** Nothing disappears uncounted: every native entry is removed, out of scope, returned or omitted. */
  lemma Conservation<T>(entries: seq<Entry<T>>)
    ensures var r, unique := ReportOf(entries), Unique(entries, |entries|);
      && r.nativeTotal == r.duplicatesRemoved + OutOfScope(unique, |unique|) + |r.returned| + r.omitted
      && |r.returned| <= ITEM_LIMIT && (r.omitted > 0 ==> |r.returned| == ITEM_LIMIT)
      && r.returned <= InScope(unique, |unique|)
  {
    RemovedIsCount(entries, |entries|);
    ScopeCounts(Unique(entries, |entries|), |Unique(entries, |entries|)|);
  }

  ghost predicate DistinctKeys<T>(entries: seq<Entry<T>>) {
    forall i, j :: 0 <= i < j < |entries| ==> entries[i].key != entries[j].key
  }

  ghost predicate HasKey<T>(entries: seq<Entry<T>>, key: string) {
    exists i :: 0 <= i < |entries| && !entries[i].empty && entries[i].key == key
  }

  /** The list without duplicates has the same keys, each once: nothing is kept twice and nothing is lost. */
  lemma {:induction false} UniqueRepresents<T>(entries: seq<Entry<T>>, k: nat)
    requires k <= |entries|
    ensures DistinctKeys(Unique(entries, k)) && forall u :: u in Unique(entries, k) ==> !u.empty
    ensures forall key :: HasKey(Unique(entries, k), key) <==> HasKey(entries[..k], key)
  {
    if k > 0 {
      UniqueRepresents(entries, k - 1);
      var before, last := Unique(entries, k - 1), entries[k - 1];
      var first := entries[..k - 1];
      assert entries[..k] == first + [last];
      forall key ensures HasKey(entries[..k], key) <==> HasKey(first, key) || (!last.empty && last.key == key) {
        HasKeySnoc(first, last, key);
      }
      var longer := before + [last];
      forall key ensures HasKey(longer, key) <==> HasKey(before, key) || (!last.empty && last.key == key) {
        HasKeySnoc(before, last, key);
      }
      assert Kept(entries, k - 1) <==> !last.empty && !HasKey(first, last.key);
      if Kept(entries, k - 1) {
        forall e | e in before ensures e.key != last.key {
          var i :| 0 <= i < |before| && before[i] == e;
          assert !e.empty && (HasKey(before, e.key) <==> HasKey(first, e.key));
        }
        DistinctSnoc(before, last);
      }
    }
  }

  lemma HasKeySnoc<T>(entries: seq<Entry<T>>, last: Entry<T>, key: string)
    ensures HasKey(entries + [last], key) <==> HasKey(entries, key) || (!last.empty && last.key == key)
  {
    var all := entries + [last];
    if HasKey(entries, key) {
      var i :| 0 <= i < |entries| && !entries[i].empty && entries[i].key == key;
      assert all[i] == entries[i];
    }
    assert all[|entries|] == last;
  }

  lemma DistinctSnoc<T>(entries: seq<Entry<T>>, last: Entry<T>)
    requires DistinctKeys(entries) && forall e :: e in entries ==> e.key != last.key
    ensures DistinctKeys(entries + [last])
  {
    forall i | 0 <= i < |entries| ensures entries[i].key != last.key { assert entries[i] in entries; }
  }

  // ---------- Changed files ----------

  function FileEntry(path: string, scope: string): Entry<string> {
    var name := Normalize(path);
    Entry(name, name == "", Normalize(name), Normalize(scope) == "" || MatchesScope(name, Normalize(scope)))
  }

  function FileEntries(paths: seq<string>, scope: string): seq<Entry<string>> {
    seq(|paths|, i requires 0 <= i < |paths| => FileEntry(paths[i], scope))
  }

  function Values<T>(entries: seq<Entry<T>>): seq<T> {
    seq(|entries|, i requires 0 <= i < |entries| => entries[i].value)
  }

  /** The changed files of a report. */
  method ChangedFiles(native: seq<string>, scope: string) returns (files: seq<string>, r: Report<string>)
    ensures r == ReportOf(FileEntries(native, scope)) && files == Values(r.returned)
  {
    r := Bound(FileEntries(native, scope));
    files := Values(r.returned);
  }

  lemma {:induction false} AllKept<T>(entries: seq<Entry<T>>, k: nat)
    requires k <= |entries| && DistinctKeys(entries) && forall i :: 0 <= i < |entries| ==> !entries[i].empty
    ensures Unique(entries, k) == entries[..k]
  {
    if k > 0 { AllKept(entries, k - 1); }
  }

  lemma {:induction false} AllInScope<T>(entries: seq<Entry<T>>, k: nat)
    requires k <= |entries| && forall i :: 0 <= i < |entries| ==> entries[i].inScope
    ensures InScope(entries, k) == entries[..k]
  {
    if k > 0 { AllInScope(entries, k - 1); }
  }

  lemma {:induction false} InScopeMembers<T>(entries: seq<Entry<T>>, k: nat)
    requires k <= |entries|
    ensures forall e :: e in InScope(entries, k) ==> e in entries && e.inScope
    ensures DistinctKeys(entries) ==> DistinctKeys(InScope(entries, k))
  {
    if k > 0 {
      InScopeMembers(entries, k - 1);
      if DistinctKeys(entries) {
        KeyStaysOut(entries, k - 1, entries[k - 1].key);
        DistinctSnoc(InScope(entries, k - 1), entries[k - 1]);
      }
    }
  }

  lemma {:induction false} KeyStaysOut<T>(entries: seq<Entry<T>>, k: nat, key: string)
    requires k <= |entries| && forall j :: 0 <= j < k ==> entries[j].key != key
    ensures forall e :: e in InScope(entries, k) ==> e.key != key
  {
    if k > 0 { KeyStaysOut(entries, k - 1, key); }
  }

  ghost predicate AllNormal(files: seq<string>) { forall i :: 0 <= i < |files| ==> Normalize(files[i]) == files[i] }

  lemma NormalStays(native: seq<string>, scope: string)
    requires AllNormal(Values(ReportOf(FileEntries(native, scope)).returned))
    ensures var files := Values(ReportOf(FileEntries(native, scope)).returned);
      Values(ReportOf(FileEntries(files, scope)).returned) == files
  {
    var returned := ReportOf(FileEntries(native, scope)).returned;
    var files := Values(returned);
    var again := FileEntries(files, scope);
    ReturnedShape(native, scope);
    forall i | 0 <= i < |again| ensures again[i] == returned[i] {
      assert IsFileEntry(returned[i], scope) && returned[i].value == files[i] && Normalize(files[i]) == files[i];
    }
    assert again == returned;
    AllPass(returned);
  }

  /** A short list without empty, repeated or foreign entries passes as it is. */
  lemma AllPass<T>(entries: seq<Entry<T>>)
    requires DistinctKeys(entries) && |entries| <= ITEM_LIMIT
    requires forall i :: 0 <= i < |entries| ==> !entries[i].empty && entries[i].inScope
    ensures ReportOf(entries).returned == entries
  {
    AllKept(entries, |entries|);
    AllInScope(entries, |entries|);
    assert entries[..|entries|] == entries;
  }

  /** The entry is consistent with its own name. */
  predicate IsFileEntry(e: Entry<string>, scope: string) {
    && e.empty == (e.value == "") && e.key == Normalize(e.value)
    && e.inScope == (Normalize(scope) == "" || MatchesScope(e.value, Normalize(scope)))
  }

  lemma ReturnedShape(native: seq<string>, scope: string)
    ensures var returned := ReportOf(FileEntries(native, scope)).returned;
      && DistinctKeys(returned) && |returned| <= ITEM_LIMIT
      && forall i :: 0 <= i < |returned| ==> IsFileEntry(returned[i], scope) && !returned[i].empty && returned[i].inScope
  {
    var entries := FileEntries(native, scope);
    var unique := Unique(entries, |entries|);
    UniqueRepresents(entries, |entries|);
    UniqueMembers(entries, |entries|);
    InScopeMembers(unique, |unique|);
    var returned := ReportOf(entries).returned;
    forall i | 0 <= i < |returned| ensures IsFileEntry(returned[i], scope) && !returned[i].empty && returned[i].inScope {
      assert returned[i] in InScope(unique, |unique|) && returned[i] in unique && returned[i] in entries;
    }
  }

  lemma {:induction false} UniqueMembers<T>(entries: seq<Entry<T>>, k: nat)
    requires k <= |entries|
    ensures forall e :: e in Unique(entries, k) ==> e in entries
  {
    if k > 0 { UniqueMembers(entries, k - 1); }
  }

  // ---------- Which names are left alone ----------

  /** No blank at either end, no backslash, no leading "./", no trailing slash. */
  predicate Clean(n: string) {
    n == "" || (&& !IsSpace(n[0]) && !IsSpace(n[|n| - 1]) && '\\' !in n && n[|n| - 1] != '/'
                && !(|n| >= 2 && n[0] == '.' && n[1] == '/'))
  }

  lemma {:induction false} TrimStartKeeps(s: string)
    ensures |TrimStart(s)| <= |s| && (|TrimStart(s)| == |s| <==> s == "" || !IsSpace(s[0]))
    ensures |TrimStart(s)| == |s| ==> TrimStart(s) == s
  {
    if s != "" && IsSpace(s[0]) { TrimStartKeeps(s[1..]); }
  }

  lemma {:induction false} TrimEndKeeps(s: string)
    ensures |TrimEnd(s)| <= |s| && (|TrimEnd(s)| == |s| <==> s == "" || !IsSpace(s[|s| - 1]))
    ensures |TrimEnd(s)| == |s| ==> TrimEnd(s) == s
  {
    if s != "" && IsSpace(s[|s| - 1]) { TrimEndKeeps(s[..|s| - 1]); }
  }

  lemma {:induction false} StripSlashesKeeps(s: string)
    ensures |StripSlashes(s)| <= |s| && (|StripSlashes(s)| == |s| <==> s == "" || s[|s| - 1] != '/')
    ensures |StripSlashes(s)| == |s| ==> StripSlashes(s) == s
  {
    if s != "" && s[|s| - 1] == '/' { StripSlashesKeeps(s[..|s| - 1]); }
  }

  /** Normalisation leaves exactly the clean names alone; "././a" is a name it has to be applied to twice. */
  lemma NormalizeFixesClean(n: string)
    ensures Normalize(n) == n <==> Clean(n)
  {
    TrimStartKeeps(n);
    var t := TrimStart(n);
    TrimEndKeeps(t);
    var f := ForwardSlashes(TrimEnd(t));
    var d := StripDot(f);
    StripSlashesKeeps(d);
    if Normalize(n) == n || Clean(n) {
      assert |t| == |n| ==> t == n;
      if Normalize(n) == n { assert |n| <= |d| <= |f| <= |t| <= |n|; }
      assert '\\' !in n <==> ForwardSlashes(n) == n by { NoBackslash(n); }
    }
  }

  lemma NoBackslash(n: string)
    ensures '\\' !in n <==> ForwardSlashes(n) == n
  {
    if ForwardSlashes(n) == n {
      forall i | 0 <= i < |n| ensures n[i] != '\\' { assert ForwardSlashes(n)[i] == n[i]; }
    }
  }

  lemma NormalizingTwiceDiffers()
    ensures Normalize("././a") == "./a" && Normalize("./a") == "a" && !Clean(Normalize("././a"))
  {
    NormalizeFixesClean("a");
    assert TrimStart("././a") == "././a" && TrimEnd("././a") == "././a" && ForwardSlashes("././a") == "././a";
    assert TrimStart("./a") == "./a" && TrimEnd("./a") == "./a" && ForwardSlashes("./a") == "./a";
  }

  // ---------- When the pipeline leaves its own output alone ----------

  predicate StartsWithDot(f: string) { |f| >= 2 && f[0] == '.' && f[1] == '/' }

  /** The name without blanks around it and with forward slashes. */
  function Trimmed(n: string): string { ForwardSlashes(TrimEnd(TrimStart(n))) }

  /** A second "./" after the first, with more than slashes behind it. */
  predicate DotsTwice(f: string) {
    StartsWithDot(f) && StartsWithDot(f[2..]) && exists i :: 4 <= i < |f| && f[i] != '/'
  }

  predicate BlankAfterDot(f: string) { StartsWithDot(f) && |f| > 2 && IsSpace(f[2]) }

  predicate BlankBeforeSlashes(f: string) {
    exists k :: 0 <= k < |f| && IsSpace(f[k]) && forall i :: k < i < |f| ==> f[i] == '/'
  }

  lemma {:induction false} TrimStartIs(s: string)
    ensures var r := TrimStart(s); (r != "" ==> !IsSpace(r[0])) && |r| <= |s| && r == s[|s| - |r|..]
  {
    if s != "" && IsSpace(s[0]) { TrimStartIs(s[1..]); }
  }

  lemma {:induction false} TrimEndIs(s: string)
    ensures var r := TrimEnd(s); (r != "" ==> !IsSpace(r[|r| - 1])) && r <= s
  {
    if s != "" && IsSpace(s[|s| - 1]) { TrimEndIs(s[..|s| - 1]); }
  }

  /** What is stripped is all slashes, and what is left does not end in one. */
  lemma {:induction false} StripSlashesIs(s: string)
    ensures var r := StripSlashes(s);
      && r <= s && (r != "" ==> r[|r| - 1] != '/') && forall i :: |r| <= i < |s| ==> s[i] == '/'
  {
    if s != "" && s[|s| - 1] == '/' { StripSlashesIs(s[..|s| - 1]); }
  }

  lemma TrimmedEnds(n: string)
    ensures var f := Trimmed(n);
      (f != "" ==> !IsSpace(f[0]) && !IsSpace(f[|f| - 1])) && forall i :: 0 <= i < |f| ==> f[i] != '\\'
  {
    TrimStartIs(n);
    TrimEndIs(TrimStart(n));
  }

  /** A name has to be normalised twice exactly for one of three reasons that can be seen in the name. */
  lemma NormalizedOnceIff(n: string)
    ensures var f := Trimmed(n); Clean(Normalize(n)) <==> !DotsTwice(f) && !BlankAfterDot(f) && !BlankBeforeSlashes(f)
  {
    TrimmedEnds(n);
    StrippedCleanIff(Trimmed(n));
  }

  lemma StrippedCleanIff(f: string)
    requires f != "" ==> !IsSpace(f[0]) && !IsSpace(f[|f| - 1])
    requires forall i :: 0 <= i < |f| ==> f[i] != '\\'
    ensures Clean(StripSlashes(StripDot(f))) <==> !DotsTwice(f) && !BlankAfterDot(f) && !BlankBeforeSlashes(f)
  {
    var d := StripDot(f);
    var r := StripSlashes(d);
    StripSlashesIs(d);
    var cut := |f| - |d|;
    assert forall i :: 0 <= i < |d| ==> d[i] == f[cut + i];
    hide StripSlashes, IsSpace;
    if r != "" { SolidCleanIff(f, cut, r); } else { OnlySlashes(f, cut); }
  }

  lemma SolidCleanIff(f: string, cut: nat, r: string)
    requires cut + |r| <= |f| && cut == (if StartsWithDot(f) then 2 else 0) && r == f[cut..cut + |r|]
    requires r != "" && r[|r| - 1] != '/' && forall i :: cut + |r| <= i < |f| ==> f[i] == '/'
    requires !IsSpace(f[0]) && forall i :: 0 <= i < |f| ==> f[i] != '\\'
    ensures Clean(r) <==> !DotsTwice(f) && !BlankAfterDot(f) && !BlankBeforeSlashes(f)
  {
    hide IsSpace, BlankBeforeSlashes, DotsTwice;
    assert r[|r| - 1] == f[cut + |r| - 1] && r[0] == f[cut];
    LastBlankIff(f, cut, |r|);
    assert '\\' !in r;
    if cut == 2 { SecondDotIff(f, r); } else { NoDotsTwice(f); }
  }

  lemma NoDotsTwice(f: string)
    ensures !StartsWithDot(f) ==> !DotsTwice(f) && !BlankAfterDot(f)
  {
  }

  lemma OnlySlashes(f: string, cut: nat)
    requires cut <= |f| && cut == (if StartsWithDot(f) then 2 else 0) && forall i :: cut <= i < |f| ==> f[i] == '/'
    requires f != "" ==> !IsSpace(f[0])
    ensures !DotsTwice(f) && !BlankAfterDot(f) && !BlankBeforeSlashes(f)
  {
  }

  /** The last character that is not a slash is where a blank would show. */
  lemma LastBlankIff(f: string, cut: nat, size: nat)
    requires 0 < size && cut + size <= |f| && f[cut + size - 1] != '/' && forall i :: cut + size <= i < |f| ==> f[i] == '/'
    ensures IsSpace(f[cut + size - 1]) <==> BlankBeforeSlashes(f)
  {
  }

  lemma SecondDotIff(f: string, r: string)
    requires StartsWithDot(f) && r != "" && r <= f[2..] && r[|r| - 1] != '/' && forall i :: |r| <= i < |f| - 2 ==> f[2..][i] == '/'
    ensures StartsWithDot(r) <==> DotsTwice(f)
  {
    assert forall i :: 0 <= i < |r| ==> r[i] == f[2 + i];
    if DotsTwice(f) {
      var i :| 4 <= i < |f| && f[i] != '/';
      assert f[2..][i - 2] == f[i];
    }
    assert r[|r| - 1] == f[1 + |r|];
  }

  /** The output of the pipeline for these names and this scope goes through the pipeline unchanged. */
  predicate StaysPut(native: seq<string>, scope: string) {
    var files := Values(ReportOf(FileEntries(native, scope)).returned);
    Values(ReportOf(FileEntries(files, scope)).returned) == files
  }

  ghost predicate Over(native: seq<string>, names: iset<string>) { forall n :: n in native ==> n in names }

  lemma StaysPutIfClean(native: seq<string>, scope: string)
    requires forall n :: n in native ==> Clean(Normalize(n))
    ensures StaysPut(native, scope)
  {
    var entries := FileEntries(native, scope);
    var returned := ReportOf(entries).returned;
    var unique := Unique(entries, |entries|);
    UniqueMembers(entries, |entries|);
    InScopeMembers(unique, |unique|);
    forall i | 0 <= i < |returned| ensures Normalize(returned[i].value) == returned[i].value {
      assert returned[i] in InScope(unique, |unique|) && returned[i] in entries;
      var k :| 0 <= k < |entries| && entries[k] == returned[i];
      assert native[k] in native;
      NormalizeFixesClean(Normalize(native[k]));
    }
    NormalStays(native, scope);
  }

  lemma OneNameStaysPutIff(n: string)
    ensures StaysPut([n], "") <==> Clean(Normalize(n))
  {
    var entry := FileEntry(n, "");
    var entries := FileEntries([n], "");
    assert entries == [entry] && Normalize("") == "";
    OneEntry(entry);
    NormalizeFixesClean(Normalize(n));
    if Normalize(n) == "" {
      StaysPutIfClean([n], "");
    } else {
      var files := Values(ReportOf(entries).returned);
      assert files == [Normalize(n)];
      assert FileEntries(files, "") == [FileEntry(Normalize(n), "")];
      OneEntry(FileEntry(Normalize(n), ""));
      if Normalize(Normalize(n)) != "" {
        assert Values(ReportOf(FileEntries(files, "")).returned) == [Normalize(Normalize(n))];
      } else {
        assert Values(ReportOf(FileEntries(files, "")).returned) == [];
      }
    }
  }

  lemma OneEntry<T>(entry: Entry<T>)
    requires entry.inScope
    ensures ReportOf([entry]).returned == if entry.empty then [] else [entry]
  {
    assert Kept([entry], 0) <==> !entry.empty;
    assert Unique([entry], 0) == [];
    assert Unique([entry], 1) == if entry.empty then [] else [entry];
    if !entry.empty { AllPass([entry]); }
  }

  /**
    The pipeline is idempotent on its own output, for every list over these names and every scope, exactly when none of
    the names has to be normalised twice. A list of one offending name and no scope shows where it fails.
   */
  lemma IdempotentIffClean(names: iset<string>)
    ensures (forall native, scope :: Over(native, names) ==> StaysPut(native, scope)) <==> (forall n :: n in names ==> Clean(Normalize(n)))
  {
    if forall n :: n in names ==> Clean(Normalize(n)) {
      forall native, scope | Over(native, names) ensures StaysPut(native, scope) { StaysPutIfClean(native, scope); }
    } else {
      var n :| n in names && !Clean(Normalize(n));
      OneNameStaysPutIff(n);
      assert Over([n], names) && !StaysPut([n], "");
    }
  }
}
