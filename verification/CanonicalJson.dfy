/**
  The canonical text of a JSON value: object keys are sorted, and depth, node count and size are bounded. Two values get
  the same text exactly when they are equal up to the order of object keys.
 */
module CanonicalJson {
  import opened Results
  import opened Streams

  /** UTF-16 code unit. */
  type Unit = u: int | 0 <= u <= 0xFFFF

  type Text = seq<Unit>

  /**
    A value as the program holds it. A finite number is represented by the token that is printed for it (so 0 and -0 are
    one value); `Foreign` is anything JSON cannot express.
   */
  datatype Json =
    | Null
    | Bool(b: bool)
    | Number(token: Text)
    | NonFinite(isNaN: bool)
    | Str(s: Text)
    | Arr(items: Items)
    | Obj(fields: Fields)
    | Foreign

  datatype Items = NoItem | Item(head: Json, tail: Items)

  /** Fields in insertion order. */
  datatype Fields = NoField | Field(key: Text, value: Json, rest: Fields)

  predicate NumberUnit(u: Unit) { 48 <= u <= 57 || u in {43, 45, 46, 101} }   // digits + - . e

  predicate NumberUnits(t: Text) { forall k :: 0 <= k < |t| ==> NumberUnit(t[k]) }

  predicate NumberToken(t: Text) { t != [] && NumberUnits(t) }

  predicate HasKey(f: Fields, k: Text) { f.Field? && (f.key == k || HasKey(f.rest, k)) }

  function Lookup(f: Fields, k: Text): (r: Option<Json>)
    ensures r.Some? <==> HasKey(f, k)
    ensures r.Some? ==> Nodes(r.value) <= FieldNodes(f)
  {
    if f.NoField? then None else if f.key == k then Some(f.value) else Lookup(f.rest, k)
  }

  /** Number tokens are tokens and no object has a key twice. */
  predicate WellFormed(v: Json) {
    match v
    case Number(token) => NumberToken(token)
    case Arr(items) => ItemsWellFormed(items)
    case Obj(fields) => FieldsWellFormed(fields)
    case _ => true
  }

  predicate ItemsWellFormed(items: Items) { items.Item? ==> WellFormed(items.head) && ItemsWellFormed(items.tail) }

  predicate FieldsWellFormed(f: Fields) {
    f.Field? ==> WellFormed(f.value) && !HasKey(f.rest, f.key) && FieldsWellFormed(f.rest)
  }

  /** How many values a value is made of, itself included. */
  function Nodes(v: Json): (n: nat)
    ensures n >= 1
  {
    match v case Arr(items) => 1 + ItemNodes(items) case Obj(fields) => 1 + FieldNodes(fields) case _ => 1
  }

  function ItemNodes(items: Items): nat { if items.NoItem? then 0 else Nodes(items.head) + ItemNodes(items.tail) }

  function FieldNodes(f: Fields): nat { if f.NoField? then 0 else Nodes(f.value) + FieldNodes(f.rest) }

  // ---------- Equality of JSON values ----------

  /** Objects are unordered collections of members; everything else is compared structurally. */
  ghost predicate Same(a: Json, b: Json)
    decreases Nodes(a), 0
  {
    match a
    case Arr(items) => b.Arr? && SameItems(items, b.items)
    case Obj(fields) =>
      b.Obj? && forall k :: if HasKey(fields, k) then HasKey(b.fields, k) && SameAt(fields, b.fields, k) else !HasKey(b.fields, k)
    case _ => a == b
  }

  ghost predicate SameItems(a: Items, b: Items)
    decreases ItemNodes(a), 1
  {
    if a.NoItem? then b.NoItem? else b.Item? && Same(a.head, b.head) && SameItems(a.tail, b.tail)
  }

  ghost predicate SameAt(a: Fields, b: Fields, k: Text)
    requires HasKey(a, k) && HasKey(b, k)
    decreases FieldNodes(a), 1
  {
    Same(Lookup(a, k).value, Lookup(b, k).value)
  }

  // ---------- Sorting keys ----------

  /** Order of strings by code units. */
  predicate Less(a: Text, b: Text) {
    b != [] && (a == [] || a[0] < b[0] || (a[0] == b[0] && Less(a[1..], b[1..])))
  }

  lemma {:induction false} LessTotal(a: Text, b: Text)
    ensures Less(a, b) || Less(b, a) || a == b
    ensures !(Less(a, b) && Less(b, a)) && !Less(a, a)
  {
    if a != [] && b != [] && a[0] == b[0] {
      LessTotal(a[1..], b[1..]);
      assert a == [a[0]] + a[1..] && b == [b[0]] + b[1..];
    }
    if a != [] { LessTotal(a[1..], a[1..]); }
  }

  lemma {:induction false} LessTransitive(a: Text, b: Text, c: Text)
    requires Less(a, b) && Less(b, c)
    ensures Less(a, c)
  {
    if a != [] && a[0] == b[0] == c[0] { LessTransitive(a[1..], b[1..], c[1..]); }
  }

  /** Keys strictly ascending. */
  ghost predicate Ascending(f: Fields) {
    f.Field? ==> (forall k :: HasKey(f.rest, k) ==> Less(f.key, k)) && Ascending(f.rest)
  }

  function Insert(key: Text, value: Json, f: Fields): Fields {
    if f.NoField? || Less(key, f.key) then Field(key, value, f) else Field(f.key, f.value, Insert(key, value, f.rest))
  }

  /** Keys of this object sorted; the values are left as they are. */
  function SortKeys(f: Fields): (r: Fields)
    ensures FieldNodes(r) == FieldNodes(f)
  {
    if f.NoField? then f else InsertNodes(f.key, f.value, SortKeys(f.rest)); Insert(f.key, f.value, SortKeys(f.rest))
  }

  lemma {:induction false} InsertNodes(key: Text, value: Json, f: Fields)
    ensures FieldNodes(Insert(key, value, f)) == Nodes(value) + FieldNodes(f)
  {
    if f.Field? && !Less(key, f.key) { InsertNodes(key, value, f.rest); }
  }

  lemma {:induction false} InsertLookup(key: Text, value: Json, f: Fields, k: Text)
    requires !HasKey(f, key)
    ensures Lookup(Insert(key, value, f), k) == if k == key then Some(value) else Lookup(f, k)
  {
    if f.Field? && !Less(key, f.key) { InsertLookup(key, value, f.rest, k); }
  }

  lemma {:induction false} SortLookup(f: Fields, k: Text)
    requires UniqueKeys(f)
    ensures Lookup(SortKeys(f), k) == Lookup(f, k)
  {
    if f.Field? {
      SortLookup(f.rest, k);
      SortLookup(f.rest, f.key);
      InsertLookup(f.key, f.value, SortKeys(f.rest), k);
    }
  }

  predicate UniqueKeys(f: Fields) { f.Field? ==> !HasKey(f.rest, f.key) && UniqueKeys(f.rest) }

  lemma {:induction false} InsertAscending(key: Text, value: Json, f: Fields)
    requires Ascending(f) && !HasKey(f, key)
    ensures Ascending(Insert(key, value, f))
  {
    if f.Field? {
      LessTotal(key, f.key);
      if Less(key, f.key) {
        forall k | HasKey(f, k) ensures Less(key, k) {
          if k != f.key { LessTransitive(key, f.key, k); }
        }
      } else {
        InsertAscending(key, value, f.rest);
        forall k | HasKey(Insert(key, value, f.rest), k) ensures Less(f.key, k) {
          InsertLookup(key, value, f.rest, k);
        }
      }
    }
  }

  lemma {:induction false} SortAscending(f: Fields)
    requires UniqueKeys(f)
    ensures Ascending(SortKeys(f))
  {
    if f.Field? {
      SortAscending(f.rest);
      SortLookup(f.rest, f.key);
      InsertAscending(f.key, f.value, SortKeys(f.rest));
    }
  }

  /** Ascending objects with the same members are the same list. */
  lemma {:induction false} AscendingUnique(f: Fields, g: Fields)
    requires Ascending(f) && Ascending(g) && forall k :: Lookup(f, k) == Lookup(g, k)
    ensures f == g
  {
    if f.NoField? {
      if g.Field? { assert Lookup(g, g.key).Some?; }
    } else {
      assert Lookup(f, f.key).Some?;
      assert Lookup(g, g.key).Some?;
      LessTotal(f.key, g.key);
      assert f.key == g.key;
      assert Lookup(f, f.key) == Lookup(g, f.key);
      forall k ensures Lookup(f.rest, k) == Lookup(g.rest, k) {
        assert Lookup(f, k) == Lookup(g, k);
        LessTotal(k, f.key);
      }
      AscendingUnique(f.rest, g.rest);
    }
  }

  // ---------- The canonical form ----------

  /** Keys sorted at every level. */
  function Canonical(v: Json): Json
    decreases Nodes(v), 0
  {
    match v
    case Arr(items) => Arr(CanonicalItems(items))
    case Obj(fields) => Obj(CanonicalFields(SortKeys(fields)))
    case _ => v
  }

  function CanonicalItems(items: Items): Items
    decreases ItemNodes(items), 1
  {
    if items.NoItem? then items else Item(Canonical(items.head), CanonicalItems(items.tail))
  }

  function CanonicalFields(f: Fields): Fields
    decreases FieldNodes(f), 1
  {
    if f.NoField? then f else Field(f.key, Canonical(f.value), CanonicalFields(f.rest))
  }

  lemma {:induction false} CanonicalLookup(f: Fields, k: Text)
    ensures HasKey(CanonicalFields(f), k) <==> HasKey(f, k)
    ensures HasKey(f, k) ==> Lookup(CanonicalFields(f), k) == Some(Canonical(Lookup(f, k).value))
  {
    if f.Field? { CanonicalLookup(f.rest, k); }
  }

  lemma {:induction false} CanonicalAscending(f: Fields)
    requires Ascending(f)
    ensures Ascending(CanonicalFields(f))
  {
    if f.Field? {
      CanonicalAscending(f.rest);
      forall k | HasKey(CanonicalFields(f.rest), k) ensures Less(f.key, k) { CanonicalLookup(f.rest, k); }
    }
  }

  lemma {:induction false} WellFormedKeys(f: Fields)
    requires FieldsWellFormed(f)
    ensures UniqueKeys(f)
  {
    if f.Field? { WellFormedKeys(f.rest); }
  }

  lemma {:induction false} WellFormedLookup(f: Fields, k: Text)
    requires FieldsWellFormed(f) && HasKey(f, k)
    ensures WellFormed(Lookup(f, k).value)
  {
    if f.key != k { WellFormedLookup(f.rest, k); }
  }

  /** The members of an object in canonical form. */
  lemma ObjectMembers(f: Fields, k: Text)
    requires FieldsWellFormed(f)
    ensures var c := CanonicalFields(SortKeys(f));
      && Ascending(c) && (HasKey(c, k) <==> HasKey(f, k))
      && (HasKey(f, k) ==> Lookup(c, k) == Some(Canonical(Lookup(f, k).value)))
  {
    WellFormedKeys(f);
    SortAscending(f);
    SortLookup(f, k);
    CanonicalLookup(SortKeys(f), k);
    CanonicalAscending(SortKeys(f));
  }

  /** Canonical forms are equal exactly when the values are the same JSON. */
  lemma {:induction false} CanonicalIffSame(a: Json, b: Json)
    requires WellFormed(a) && WellFormed(b)
    ensures Canonical(a) == Canonical(b) <==> Same(a, b)
    decreases Nodes(a), 0
  {
    if a.Arr? && b.Arr? {
      ItemsIffSame(a.items, b.items);
    } else if a.Obj? && b.Obj? {
      var c, d := CanonicalFields(SortKeys(a.fields)), CanonicalFields(SortKeys(b.fields));
      forall k
        ensures HasKey(c, k) <==> HasKey(a.fields, k)
        ensures HasKey(d, k) <==> HasKey(b.fields, k)
        ensures HasKey(a.fields, k) && HasKey(b.fields, k) ==> (Lookup(c, k) == Lookup(d, k) <==> SameAt(a.fields, b.fields, k))
      {
        ObjectMembers(a.fields, k);
        ObjectMembers(b.fields, k);
        if HasKey(a.fields, k) && HasKey(b.fields, k) {
          WellFormedLookup(a.fields, k);
          WellFormedLookup(b.fields, k);
          CanonicalIffSame(Lookup(a.fields, k).value, Lookup(b.fields, k).value);
        }
      }
      if Same(a, b) {
        forall k ensures Lookup(c, k) == Lookup(d, k) { assert HasKey(a.fields, k) <==> HasKey(b.fields, k); }
        ObjectMembers(a.fields, []);
        ObjectMembers(b.fields, []);
        AscendingUnique(c, d);
      }
    }
  }

  lemma {:induction false} ItemsIffSame(a: Items, b: Items)
    requires ItemsWellFormed(a) && ItemsWellFormed(b)
    ensures CanonicalItems(a) == CanonicalItems(b) <==> SameItems(a, b)
    decreases ItemNodes(a), 1
  {
    if a.Item? && b.Item? {
      CanonicalIffSame(a.head, b.head);
      ItemsIffSame(a.tail, b.tail);
    }
  }

  // ---------- Printing ----------

  predicate High(u: Unit) { 0xD800 <= u <= 0xDBFF }

  predicate Low(u: Unit) { 0xDC00 <= u <= 0xDFFF }

  function Hex(d: int): Unit
    requires 0 <= d < 16
  {
    if d < 10 then 48 + d else 87 + d
  }

  /** A six-unit escape with lower-case hexadecimal digits. */
  function UnicodeEscape(u: Unit): Text {
    [92, 117, Hex(u / 4096), Hex(u / 256 % 16), Hex(u / 16 % 16), Hex(u % 16)]
  }

  /** The second unit of a two-unit escape, 0 for none. */
  function ShortEscape(u: Unit): Unit {
    if u == 8 then 98 else if u == 9 then 116 else if u == 10 then 110 else if u == 12 then 102 else if u == 13 then 114
    else if u == 34 then 34 else if u == 92 then 92 else 0
  }

  /** How a unit that is not part of a surrogate pair is printed. */
  function EscapeUnit(u: Unit): Text {
    if ShortEscape(u) != 0 then [92, ShortEscape(u)]
    else if u < 0x20 || High(u) || Low(u) then UnicodeEscape(u)
    else [u]
  }

  predicate Paired(s: Text) { |s| >= 2 && High(s[0]) && Low(s[1]) }

  function Width(s: Text): nat { if Paired(s) then 2 else 1 }

  /** What the head of a string is printed as: a surrogate pair as it stands, any other unit by itself. */
  function HeadText(s: Text): Text
    requires s != []
  {
    if Paired(s) then [s[0], s[1]] else EscapeUnit(s[0])
  }

  /** The rest of a string literal, closing quote included. */
  function Escape(s: Text): Text {
    if s == [] then [34] else HeadText(s) + Escape(s[Width(s)..])
  }

  const NULL_TEXT: Text := [110, 117, 108, 108]
  const TRUE_TEXT: Text := [116, 114, 117, 101]
  const FALSE_TEXT: Text := [102, 97, 108, 115, 101]

  function Print(v: Json): Text
    decreases v, 0
  {
    match v
    case Null => NULL_TEXT
    case Bool(b) => if b then TRUE_TEXT else FALSE_TEXT
    case Number(token) => token
    case Str(s) => [34] + Escape(s)
    case Arr(items) => [91] + (if items.NoItem? then [93] else Print(items.head) + PrintItems(items.tail))
    case Obj(fields) => [123] + (if fields.NoField? then [125] else PrintMember(fields))
    case NonFinite(_) => []
    case Foreign => []
  }

  function PrintItems(items: Items): Text
    decreases items, 0
  {
    if items.NoItem? then [93] else [44] + (Print(items.head) + PrintItems(items.tail))
  }

  /** The first member and whatever follows it. */
  function PrintMember(f: Fields): Text
    requires f.Field?
    decreases f, 0
  {
    [34] + (Escape(f.key) + ([58] + (Print(f.value) + PrintFields(f.rest))))
  }

  function PrintFields(f: Fields): Text
    decreases f, 1
  {
    if f.NoField? then [125] else [44] + PrintMember(f)
  }

  predicate Printable(v: Json) {
    match v
    case Number(token) => NumberToken(token)
    case Arr(items) => ItemsPrintable(items)
    case Obj(fields) => FieldsPrintable(fields)
    case NonFinite(_) => false
    case Foreign => false
    case _ => true
  }

  predicate ItemsPrintable(items: Items) { items.Item? ==> Printable(items.head) && ItemsPrintable(items.tail) }

  predicate FieldsPrintable(f: Fields) { f.Field? ==> Printable(f.value) && FieldsPrintable(f.rest) }

  // ---------- Printing loses nothing ----------

  lemma HexInjective(a: int, b: int)
    requires 0 <= a < 16 && 0 <= b < 16 && Hex(a) == Hex(b)
    ensures a == b
  {
  }

  lemma UnicodeEscapeInjective(u: Unit, v: Unit)
    requires UnicodeEscape(u) == UnicodeEscape(v)
    ensures u == v
  {
    var a, b := UnicodeEscape(u), UnicodeEscape(v);
    assert a[2] == b[2] && a[3] == b[3] && a[4] == b[4] && a[5] == b[5];
    HexInjective(u / 4096, v / 4096);
    HexInjective(u / 256 % 16, v / 256 % 16);
    HexInjective(u / 16 % 16, v / 16 % 16);
    HexInjective(u % 16, v % 16);
    Digits(u);
    Digits(v);
  }

  lemma Digits(u: Unit)
    ensures u == 4096 * (u / 4096) + 256 * (u / 256 % 16) + 16 * (u / 16 % 16) + u % 16
  {
    assert u / 256 == u / 16 / 16 && u / 4096 == u / 256 / 16;
  }

  /** The heads of two strings that start the same text are the same. */
  lemma HeadPrefix(s: Text, t: Text, r: Text, q: Text)
    requires s != [] && t != [] && HeadText(s) + r == HeadText(t) + q
    ensures HeadText(s) == HeadText(t) && Width(s) == Width(t) && s[..Width(s)] == t[..Width(t)] && r == q
  {
    var x, y := HeadText(s) + r, HeadText(t) + q;
    assert x[0] == HeadText(s)[0] && y[0] == HeadText(t)[0];
    if |HeadText(s)| > 1 && |HeadText(t)| > 1 { assert x[1] == HeadText(s)[1] && y[1] == HeadText(t)[1]; }
    SameWidthHeads(s, t);
    assert HeadText(s) == x[..|HeadText(s)|] && HeadText(t) == y[..|HeadText(t)|];
    assert r == x[|HeadText(s)|..] && q == y[|HeadText(t)|..];
    if !Paired(s) && |HeadText(s)| == 6 { UnicodeEscapeInjective(s[0], t[0]); }
  }

  lemma SameWidthHeads(s: Text, t: Text)
    requires s != [] && t != [] && HeadText(s)[0] == HeadText(t)[0]
    requires |HeadText(s)| > 1 && |HeadText(t)| > 1 ==> HeadText(s)[1] == HeadText(t)[1]
    ensures |HeadText(s)| == |HeadText(t)| && Width(s) == Width(t)
  {
  }

  /** Only the closing quote starts with a quote. */
  lemma EscapeEnds(t: Text, r: Text, q: Text)
    requires [34] + r == Escape(t) + q
    ensures t == [] && r == q
  {
    var x, y := [34] + r, Escape(t) + q;
    assert x[0] == 34 && y[0] == Escape(t)[0];
    assert x[1..] == r && t == [] ==> y[1..] == q;
  }

  lemma EscapeStep(s: Text, t: Text, r: Text, q: Text)
    requires s != [] && t != [] && Escape(s) + r == Escape(t) + q
    ensures Width(s) == Width(t) && s[..Width(s)] == t[..Width(t)]
    ensures Escape(s[Width(s)..]) + r == Escape(t[Width(t)..]) + q
  {
    Assoc(HeadText(s), Escape(s[Width(s)..]), r);
    Assoc(HeadText(t), Escape(t[Width(t)..]), q);
    HeadPrefix(s, t, Escape(s[Width(s)..]) + r, Escape(t[Width(t)..]) + q);
  }

  lemma {:induction false} EscapePrefix(s: Text, t: Text, r: Text, q: Text)
    requires Escape(s) + r == Escape(t) + q
    ensures s == t && r == q
    decreases |s|
  {
    if s == [] {
      EscapeEnds(t, r, q);
    } else if t == [] {
      EscapeEnds(s, q, r);
    } else {
      EscapeStep(s, t, r, q);
      EscapePrefix(s[Width(s)..], t[Width(t)..], r, q);
      Rejoin(s, t, Width(s));
    }
  }

  lemma Rejoin(s: Text, t: Text, n: nat)
    requires n <= |s| && n <= |t| && s[..n] == t[..n] && s[n..] == t[n..]
    ensures s == t
  {
    assert s == s[..n] + s[n..] && t == t[..n] + t[n..];
  }

  /** What may follow a value: a comma, a closing bracket, or nothing. */
  predicate Ends(r: Text) { r == [] || r[0] in {44, 93, 125} }

  lemma {:induction false} TokenPrefix(a: Text, b: Text, r: Text, q: Text)
    requires NumberUnits(a) && NumberUnits(b) && Ends(r) && Ends(q) && a + r == b + q
    ensures a == b && r == q
  {
    var x, y := a + r, b + q;
    if a == [] || b == [] {
      assert a == [] ==> x == r;
      assert b == [] ==> y == q;
    } else {
      assert x[1..] == a[1..] + r && y[1..] == b[1..] + q;
      TokenPrefix(a[1..], b[1..], r, q);
      assert a == [x[0]] + a[1..] && b == [y[0]] + b[1..];
    }
  }

  /** The first unit tells the kinds of values apart. */
  function Kind(v: Json): int {
    match v
    case Null => 0 case Bool(b) => if b then 1 else 2 case Number(_) => 3 case Str(_) => 4 case Arr(_) => 5 case Obj(_) => 6
    case _ => 7
  }

  lemma FirstUnit(v: Json)
    requires Printable(v)
    ensures Print(v) != []
    ensures var u := Print(v)[0];
      Kind(v) == if u == 110 then 0 else if u == 116 then 1 else if u == 102 then 2 else if u == 34 then 4
                 else if u == 91 then 5 else if u == 123 then 6 else 3
  {
  }

  lemma FixedPrefix(head: Text, r: Text, q: Text)
    requires head + r == head + q
    ensures r == q
  {
    assert (head + r)[|head|..] == r && (head + q)[|head|..] == q;
  }

  /** Unique reading: texts that agree, followed by anything that can follow a value, come from the same value. */
  lemma {:induction false} PrintPrefix(a: Json, b: Json, r: Text, q: Text)
    requires Printable(a) && Printable(b) && Ends(r) && Ends(q) && Print(a) + r == Print(b) + q
    ensures a == b && r == q
    decreases a, 0
  {
    FirstUnit(a);
    FirstUnit(b);
    assert Print(a)[0] == (Print(a) + r)[0] && Print(b)[0] == (Print(b) + q)[0];
    assert Kind(a) == Kind(b);
    match a
    case Number(token) => TokenPrefix(token, b.token, r, q);
    case Str(s) =>
      Assoc([34], Escape(s), r);
      Assoc([34], Escape(b.s), q);
      FixedPrefix([34], Escape(s) + r, Escape(b.s) + q);
      EscapePrefix(s, b.s, r, q);
    case Arr(items) =>
      Assoc([91], FirstItems(items), r);
      Assoc([91], FirstItems(b.items), q);
      FixedPrefix([91], FirstItems(items) + r, FirstItems(b.items) + q);
      FirstItemsPrefix(items, b.items, r, q);
    case Obj(fields) =>
      Assoc([123], FirstFields(fields), r);
      Assoc([123], FirstFields(b.fields), q);
      FixedPrefix([123], FirstFields(fields) + r, FirstFields(b.fields) + q);
      FirstFieldsPrefix(fields, b.fields, r, q);
    case _ => FixedPrefix(Print(a), r, q);
  }

  function FirstItems(items: Items): Text {
    if items.NoItem? then [93] else Print(items.head) + PrintItems(items.tail)
  }

  function FirstFields(f: Fields): Text { if f.NoField? then [125] else PrintMember(f) }

  lemma ItemsStart(items: Items, r: Text)
    requires ItemsPrintable(items)
    ensures FirstItems(items) != [] && PrintItems(items) != []
    ensures FirstItems(items)[0] == 93 <==> items.NoItem?
    ensures PrintItems(items)[0] == if items.NoItem? then 93 else 44
    ensures Ends(PrintItems(items) + r)
  {
    if items.Item? { FirstUnit(items.head); }
  }

  lemma {:induction false} FirstItemsPrefix(a: Items, b: Items, r: Text, q: Text)
    requires ItemsPrintable(a) && ItemsPrintable(b) && Ends(r) && Ends(q) && FirstItems(a) + r == FirstItems(b) + q
    ensures a == b && r == q
    decreases a, 1
  {
    ItemsStart(a, r);
    ItemsStart(b, q);
    assert (FirstItems(a) + r)[0] == FirstItems(a)[0] && (FirstItems(b) + q)[0] == FirstItems(b)[0];
    if a.NoItem? {
      FixedPrefix([93], r, q);
    } else {
      ItemPrefix(a, b, r, q);
    }
  }

  lemma {:induction false} ItemPrefix(a: Items, b: Items, r: Text, q: Text)
    requires a.Item? && b.Item? && ItemsPrintable(a) && ItemsPrintable(b) && Ends(r) && Ends(q)
    requires (Print(a.head) + PrintItems(a.tail)) + r == (Print(b.head) + PrintItems(b.tail)) + q
    ensures a == b && r == q
    decreases a, 0
  {
    Assoc(Print(a.head), PrintItems(a.tail), r);
    Assoc(Print(b.head), PrintItems(b.tail), q);
    ItemsStart(a.tail, r);
    ItemsStart(b.tail, q);
    PrintPrefix(a.head, b.head, PrintItems(a.tail) + r, PrintItems(b.tail) + q);
    ItemsPrefix(a.tail, b.tail, r, q);
  }

  lemma {:induction false} ItemsPrefix(a: Items, b: Items, r: Text, q: Text)
    requires ItemsPrintable(a) && ItemsPrintable(b) && Ends(r) && Ends(q) && PrintItems(a) + r == PrintItems(b) + q
    ensures a == b && r == q
    decreases a, 1
  {
    ItemsStart(a, r);
    ItemsStart(b, q);
    assert (PrintItems(a) + r)[0] == PrintItems(a)[0] && (PrintItems(b) + q)[0] == PrintItems(b)[0];
    if a.NoItem? {
      FixedPrefix([93], r, q);
    } else {
      Assoc([44], Print(a.head) + PrintItems(a.tail), r);
      Assoc([44], Print(b.head) + PrintItems(b.tail), q);
      FixedPrefix([44], (Print(a.head) + PrintItems(a.tail)) + r, (Print(b.head) + PrintItems(b.tail)) + q);
      ItemPrefix(a, b, r, q);
    }
  }

  lemma FieldsStart(f: Fields, r: Text)
    ensures FirstFields(f) != [] && PrintFields(f) != []
    ensures FirstFields(f)[0] == if f.NoField? then 125 else 34
    ensures PrintFields(f)[0] == if f.NoField? then 125 else 44
    ensures Ends(PrintFields(f) + r)
  {
  }

  lemma {:induction false} FirstFieldsPrefix(a: Fields, b: Fields, r: Text, q: Text)
    requires FieldsPrintable(a) && FieldsPrintable(b) && Ends(r) && Ends(q) && FirstFields(a) + r == FirstFields(b) + q
    ensures a == b && r == q
    decreases a, 1
  {
    FieldsStart(a, r);
    FieldsStart(b, q);
    assert (FirstFields(a) + r)[0] == FirstFields(a)[0] && (FirstFields(b) + q)[0] == FirstFields(b)[0];
    if a.NoField? {
      FixedPrefix([125], r, q);
    } else {
      MemberPrefix(a, b, r, q);
    }
  }

  lemma MemberShape(f: Fields, r: Text)
    requires f.Field?
    ensures PrintMember(f) + r == [34] + (Escape(f.key) + ([58] + (Print(f.value) + (PrintFields(f.rest) + r))))
  {
    var a, b, c := Escape(f.key), Print(f.value), PrintFields(f.rest);
    Assoc(b, c, r);
    Assoc([58], b + c, r);
    Assoc(a, [58] + (b + c), r);
    Assoc([34], a + ([58] + (b + c)), r);
  }

  lemma {:induction false} MemberPrefix(a: Fields, b: Fields, r: Text, q: Text)
    requires a.Field? && b.Field? && FieldsPrintable(a) && FieldsPrintable(b) && Ends(r) && Ends(q)
    requires PrintMember(a) + r == PrintMember(b) + q
    ensures a == b && r == q
    decreases a, 0
  {
    MemberShape(a, r);
    MemberShape(b, q);
    var x, y := Print(a.value) + (PrintFields(a.rest) + r), Print(b.value) + (PrintFields(b.rest) + q);
    FixedPrefix([34], Escape(a.key) + ([58] + x), Escape(b.key) + ([58] + y));
    EscapePrefix(a.key, b.key, [58] + x, [58] + y);
    FixedPrefix([58], x, y);
    FieldsStart(a.rest, r);
    FieldsStart(b.rest, q);
    PrintPrefix(a.value, b.value, PrintFields(a.rest) + r, PrintFields(b.rest) + q);
    FieldsPrefix(a.rest, b.rest, r, q);
  }

  lemma {:induction false} FieldsPrefix(a: Fields, b: Fields, r: Text, q: Text)
    requires FieldsPrintable(a) && FieldsPrintable(b) && Ends(r) && Ends(q) && PrintFields(a) + r == PrintFields(b) + q
    ensures a == b && r == q
    decreases a, 1
  {
    FieldsStart(a, r);
    FieldsStart(b, q);
    assert (PrintFields(a) + r)[0] == PrintFields(a)[0] && (PrintFields(b) + q)[0] == PrintFields(b)[0];
    if a.NoField? {
      FixedPrefix([125], r, q);
    } else {
      Assoc([44], PrintMember(a), r);
      Assoc([44], PrintMember(b), q);
      FixedPrefix([44], PrintMember(a) + r, PrintMember(b) + q);
      MemberPrefix(a, b, r, q);
    }
  }

  /** Different values are printed differently. */
  lemma PrintInjective(a: Json, b: Json)
    requires Printable(a) && Printable(b) && Print(a) == Print(b)
    ensures a == b
  {
    assert Print(a) + [] == Print(a) && Print(b) + [] == Print(b);
    PrintPrefix(a, b, [], []);
  }

  // ---------- The walk with its limits ----------

  const MAX_DEPTH := 32
  const MAX_NODES := 4096
  const MAX_BINDING_BYTES := 64 * 1024

  /** Everything the walk throws. */
  datatype CanonicalError = Refused

  datatype Walked = Walked(text: Text, nodes: nat)

  datatype Parts = Parts(texts: seq<Text>, nodes: nat)

  function Join(parts: seq<Text>): Text {
    if parts == [] then [] else if |parts| == 1 then parts[0] else parts[0] + ([44] + Join(parts[1..]))
  }

  /** The recursive walk: `nodes` counts the values visited so far, and each object sorts its own keys. */
  function Walk(v: Json, depth: nat, nodes: nat): Result<Walked, CanonicalError>
    decreases Nodes(v), 0
  {
    if depth > MAX_DEPTH || nodes + 1 > MAX_NODES then Err(Refused)
    else match v
      case Null => Ok(Walked(NULL_TEXT, nodes + 1))
      case Bool(b) => Ok(Walked(if b then TRUE_TEXT else FALSE_TEXT, nodes + 1))
      case Number(token) => Ok(Walked(token, nodes + 1))
      case Str(s) => Ok(Walked([34] + Escape(s), nodes + 1))
      case Arr(items) =>
        var r := WalkItems(items, depth + 1, nodes + 1);
        if r.Err? then Err(Refused) else Ok(Walked([91] + (Join(r.value.texts) + [93]), r.value.nodes))
      case Obj(fields) =>
        var r := WalkFields(SortKeys(fields), depth + 1, nodes + 1);
        if r.Err? then Err(Refused) else Ok(Walked([123] + (Join(r.value.texts) + [125]), r.value.nodes))
      case _ => Err(Refused)
  }

  function WalkItems(items: Items, depth: nat, nodes: nat): Result<Parts, CanonicalError>
    decreases ItemNodes(items), 1
  {
    if items.NoItem? then Ok(Parts([], nodes))
    else
      var head := Walk(items.head, depth, nodes);
      if head.Err? then Err(Refused)
      else
        var tail := WalkItems(items.tail, depth, head.value.nodes);
        if tail.Err? then tail else Ok(Parts([head.value.text] + tail.value.texts, tail.value.nodes))
  }

  function WalkFields(f: Fields, depth: nat, nodes: nat): Result<Parts, CanonicalError>
    decreases FieldNodes(f), 1
  {
    if f.NoField? then Ok(Parts([], nodes))
    else
      var head := Walk(f.value, depth, nodes);
      if head.Err? then Err(Refused)
      else
        var tail := WalkFields(f.rest, depth, head.value.nodes);
        if tail.Err? then tail
        else Ok(Parts([[34] + (Escape(f.key) + ([58] + head.value.text))] + tail.value.texts, tail.value.nodes))
  }

  /** Size in bytes when the text is encoded; a surrogate pair takes four. */
  function TextBytes(t: Text): nat {
    if t == [] then 0
    else (if t[0] < 0x80 then 1 else if t[0] < 0x800 || High(t[0]) || Low(t[0]) then 2 else 3) + TextBytes(t[1..])
  }

  function CanonicalText(v: Json, maxBytes: nat): Result<Text, CanonicalError> {
    var r := Walk(v, 0, 0);
    if r.Err? || TextBytes(r.value.text) > maxBytes then Err(Refused) else Ok(r.value.text)
  }

  // ---------- The walk prints the canonical form of whatever fits ----------

  function Max(a: nat, b: nat): nat { if a > b then a else b }

  /** Levels of nesting, the value itself included. */
  function Depth(v: Json): (n: nat)
    ensures n >= 1
  {
    match v case Arr(items) => 1 + ItemDepth(items) case Obj(fields) => 1 + FieldDepth(fields) case _ => 1
  }

  function ItemDepth(items: Items): nat { if items.NoItem? then 0 else Max(Depth(items.head), ItemDepth(items.tail)) }

  function FieldDepth(f: Fields): nat { if f.NoField? then 0 else Max(Depth(f.value), FieldDepth(f.rest)) }

  /** Made of JSON values only. */
  predicate Expressible(v: Json) {
    match v
    case Arr(items) => ItemsExpressible(items)
    case Obj(fields) => FieldsExpressible(fields)
    case NonFinite(_) => false
    case Foreign => false
    case _ => true
  }

  predicate ItemsExpressible(items: Items) { items.Item? ==> Expressible(items.head) && ItemsExpressible(items.tail) }

  predicate FieldsExpressible(f: Fields) { f.Field? ==> Expressible(f.value) && FieldsExpressible(f.rest) }

  lemma {:induction false} InsertMeasures(key: Text, value: Json, f: Fields)
    ensures FieldDepth(Insert(key, value, f)) == Max(Depth(value), FieldDepth(f))
    ensures FieldsExpressible(Insert(key, value, f)) <==> Expressible(value) && FieldsExpressible(f)
    ensures FieldsPrintable(Insert(key, value, f)) <==> Printable(value) && FieldsPrintable(f)
  {
    if f.Field? && !Less(key, f.key) { InsertMeasures(key, value, f.rest); }
  }

  lemma {:induction false} SortMeasures(f: Fields)
    ensures FieldDepth(SortKeys(f)) == FieldDepth(f)
    ensures FieldsExpressible(SortKeys(f)) <==> FieldsExpressible(f)
    ensures FieldsPrintable(SortKeys(f)) <==> FieldsPrintable(f)
  {
    if f.Field? {
      SortMeasures(f.rest);
      InsertMeasures(f.key, f.value, SortKeys(f.rest));
    }
  }

  /** Sorting at every level changes neither size, depth nor kind of contents. */
  lemma {:induction false} CanonicalMeasures(v: Json)
    ensures Nodes(Canonical(v)) == Nodes(v) && Depth(Canonical(v)) == Depth(v)
    ensures Expressible(Canonical(v)) <==> Expressible(v)
    ensures Printable(Canonical(v)) <==> Printable(v)
    decreases Nodes(v), 0
  {
    match v
    case Arr(items) => ItemMeasures(items);
    case Obj(fields) =>
      SortMeasures(fields);
      FieldMeasures(SortKeys(fields));
    case _ =>
  }

  lemma {:induction false} ItemMeasures(items: Items)
    ensures var c := CanonicalItems(items);
      && ItemNodes(c) == ItemNodes(items) && ItemDepth(c) == ItemDepth(items)
      && (ItemsExpressible(c) <==> ItemsExpressible(items)) && (ItemsPrintable(c) <==> ItemsPrintable(items))
    decreases ItemNodes(items), 1
  {
    if items.Item? {
      CanonicalMeasures(items.head);
      ItemMeasures(items.tail);
    }
  }

  lemma {:induction false} FieldMeasures(f: Fields)
    ensures var c := CanonicalFields(f);
      && FieldNodes(c) == FieldNodes(f) && FieldDepth(c) == FieldDepth(f)
      && (FieldsExpressible(c) <==> FieldsExpressible(f)) && (FieldsPrintable(c) <==> FieldsPrintable(f))
    decreases FieldNodes(f), 1
  {
    if f.Field? {
      CanonicalMeasures(f.value);
      FieldMeasures(f.rest);
    }
  }

  lemma {:induction false} ExpressiblePrintable(v: Json)
    requires WellFormed(v) && Expressible(v)
    ensures Printable(v)
    decreases v, 0
  {
    match v
    case Arr(items) => ItemsExpressiblePrintable(items);
    case Obj(fields) => FieldsExpressiblePrintable(fields);
    case _ =>
  }

  lemma {:induction false} ItemsExpressiblePrintable(items: Items)
    requires ItemsWellFormed(items) && ItemsExpressible(items)
    ensures ItemsPrintable(items)
    decreases items, 1
  {
    if items.Item? {
      ExpressiblePrintable(items.head);
      ItemsExpressiblePrintable(items.tail);
    }
  }

  lemma {:induction false} FieldsExpressiblePrintable(f: Fields)
    requires FieldsWellFormed(f) && FieldsExpressible(f)
    ensures FieldsPrintable(f)
    decreases f, 1
  {
    if f.Field? {
      ExpressiblePrintable(f.value);
      FieldsExpressiblePrintable(f.rest);
    }
  }

  function ItemTexts(items: Items): seq<Text> {
    if items.NoItem? then [] else [Print(items.head)] + ItemTexts(items.tail)
  }

  function FieldTexts(f: Fields): seq<Text> {
    if f.NoField? then [] else [[34] + (Escape(f.key) + ([58] + Print(f.value)))] + FieldTexts(f.rest)
  }

  lemma {:induction false} JoinItems(items: Items)
    ensures Join(ItemTexts(items)) + [93] == FirstItems(items)
  {
    if items.Item? {
      JoinItems(items.tail);
      var head, rest := Print(items.head), ItemTexts(items.tail);
      assert ([head] + rest)[1..] == rest;
      if items.tail.Item? {
        Assoc(head, [44] + Join(rest), [93]);
        Assoc([44], Join(rest), [93]);
      }
    }
  }

  lemma {:induction false} JoinFields(f: Fields)
    ensures Join(FieldTexts(f)) + [125] == FirstFields(f)
  {
    if f.Field? {
      JoinFields(f.rest);
      var head, rest := [34] + (Escape(f.key) + ([58] + Print(f.value))), FieldTexts(f.rest);
      assert ([head] + rest)[1..] == rest;
      MemberThen(f, PrintFields(f.rest));
      if f.rest.Field? {
        Assoc(head, [44] + Join(rest), [125]);
        Assoc([44], Join(rest), [125]);
      }
    }
  }

  lemma MemberThen(f: Fields, r: Text)
    requires f.Field?
    ensures ([34] + (Escape(f.key) + ([58] + Print(f.value)))) + r == [34] + (Escape(f.key) + ([58] + (Print(f.value) + r)))
  {
    Assoc([58], Print(f.value), r);
    Assoc(Escape(f.key), [58] + Print(f.value), r);
    Assoc([34], Escape(f.key) + ([58] + Print(f.value)), r);
  }

  predicate Fits(v: Json, depth: nat, nodes: nat) {
    Expressible(v) && depth + Depth(v) <= MAX_DEPTH + 1 && nodes + Nodes(v) <= MAX_NODES
  }

  /** The counting walk does exactly this: print the canonical form, or refuse what does not fit. */
  lemma {:induction false} WalkPrintsCanonical(v: Json, depth: nat, nodes: nat)
    ensures Walk(v, depth, nodes)
         == if Fits(v, depth, nodes) then Ok(Walked(Print(Canonical(v)), nodes + Nodes(v))) else Err(Refused)
    decreases Nodes(v), 0
  {
    match v
    case Arr(items) =>
      ContentsFit(v, depth, nodes);
      WalkItemsPrints(items, depth + 1, nodes + 1);
      JoinItems(CanonicalItems(items));
    case Obj(fields) =>
      ContentsFit(v, depth, nodes);
      WalkFieldsPrints(SortKeys(fields), depth + 1, nodes + 1);
      JoinFields(CanonicalFields(SortKeys(fields)));
    case _ =>
  }

  lemma ContentsFit(v: Json, depth: nat, nodes: nat)
    ensures v.Arr? ==>
      (Fits(v, depth, nodes) <==> depth <= MAX_DEPTH && nodes + 1 <= MAX_NODES && ItemsFit(v.items, depth + 1, nodes + 1))
    ensures v.Obj? ==>
      (Fits(v, depth, nodes) <==> depth <= MAX_DEPTH && nodes + 1 <= MAX_NODES && FieldsFit(SortKeys(v.fields), depth + 1, nodes + 1))
  {
    if v.Obj? {
      SortMeasures(v.fields);
      assert v.fields.Field? <==> SortKeys(v.fields).Field?;
    }
  }

  lemma HeadAndItemsFit(items: Items, depth: nat, nodes: nat)
    requires items.Item?
    ensures ItemsFit(items, depth, nodes)
       <==> Fits(items.head, depth, nodes) && ItemsFit(items.tail, depth, nodes + Nodes(items.head))
  {
    assert ItemDepth(items) == Max(Depth(items.head), ItemDepth(items.tail));
    assert ItemNodes(items) == Nodes(items.head) + ItemNodes(items.tail);
    assert ItemsExpressible(items) <==> Expressible(items.head) && ItemsExpressible(items.tail);
    assert items.tail.NoItem? ==> ItemDepth(items.tail) == 0 && ItemNodes(items.tail) == 0;
  }

  lemma HeadAndFieldsFit(f: Fields, depth: nat, nodes: nat)
    requires f.Field?
    ensures FieldsFit(f, depth, nodes)
       <==> Fits(f.value, depth, nodes) && FieldsFit(f.rest, depth, nodes + Nodes(f.value))
  {
    assert FieldDepth(f) == Max(Depth(f.value), FieldDepth(f.rest));
    assert FieldNodes(f) == Nodes(f.value) + FieldNodes(f.rest);
    assert FieldsExpressible(f) <==> Expressible(f.value) && FieldsExpressible(f.rest);
    assert f.rest.NoField? ==> FieldDepth(f.rest) == 0 && FieldNodes(f.rest) == 0;
  }

  predicate ItemsFit(items: Items, depth: nat, nodes: nat) {
    ItemsExpressible(items) && (items.Item? ==> depth + ItemDepth(items) <= MAX_DEPTH + 1 && nodes + ItemNodes(items) <= MAX_NODES)
  }

  predicate FieldsFit(f: Fields, depth: nat, nodes: nat) {
    FieldsExpressible(f) && (f.Field? ==> depth + FieldDepth(f) <= MAX_DEPTH + 1 && nodes + FieldNodes(f) <= MAX_NODES)
  }

  lemma {:induction false} WalkItemsPrints(items: Items, depth: nat, nodes: nat)
    ensures WalkItems(items, depth, nodes)
         == if ItemsFit(items, depth, nodes) then Ok(Parts(ItemTexts(CanonicalItems(items)), nodes + ItemNodes(items))) else Err(Refused)
    decreases ItemNodes(items), 1
  {
    if items.Item? {
      HeadAndItemsFit(items, depth, nodes);
      WalkPrintsCanonical(items.head, depth, nodes);
      if Fits(items.head, depth, nodes) { WalkItemsPrints(items.tail, depth, nodes + Nodes(items.head)); }
    }
  }

  lemma {:induction false} WalkFieldsPrints(f: Fields, depth: nat, nodes: nat)
    ensures WalkFields(f, depth, nodes)
         == if FieldsFit(f, depth, nodes) then Ok(Parts(FieldTexts(CanonicalFields(f)), nodes + FieldNodes(f))) else Err(Refused)
    decreases FieldNodes(f), 1
  {
    if f.Field? {
      HeadAndFieldsFit(f, depth, nodes);
      WalkPrintsCanonical(f.value, depth, nodes);
      if Fits(f.value, depth, nodes) { WalkFieldsPrints(f.rest, depth, nodes + Nodes(f.value)); }
    }
  }

  /**
    The binding theorem: the same JSON up to key order is treated alike, limits included; and whenever a text is produced,
    only the same JSON up to key order produces it.
   */
  lemma CanonicalTextIffSame(a: Json, b: Json, maxBytes: nat)
    requires WellFormed(a) && WellFormed(b)
    ensures Same(a, b) ==> CanonicalText(a, maxBytes) == CanonicalText(b, maxBytes)
    ensures CanonicalText(a, maxBytes).Ok? && CanonicalText(a, maxBytes) == CanonicalText(b, maxBytes) ==> Same(a, b)
  {
    TextOfCanonical(a, maxBytes);
    TextOfCanonical(b, maxBytes);
    CanonicalIffSame(a, b);
    if CanonicalText(a, maxBytes).Ok? && CanonicalText(a, maxBytes) == CanonicalText(b, maxBytes) {
      PrintInjective(Canonical(a), Canonical(b));
    }
  }

  /** What the canonical form alone decides: refusal, or its print. */
  function TextOf(c: Json, maxBytes: nat): Result<Text, CanonicalError> {
    if Fits(c, 0, 0) && TextBytes(Print(c)) <= maxBytes then Ok(Print(c)) else Err(Refused)
  }

  lemma TextOfCanonical(v: Json, maxBytes: nat)
    requires WellFormed(v)
    ensures CanonicalText(v, maxBytes) == TextOf(Canonical(v), maxBytes)
    ensures CanonicalText(v, maxBytes).Ok? ==> Printable(Canonical(v))
  {
    WalkPrintsCanonical(v, 0, 0);
    CanonicalMeasures(v);
    if Expressible(v) { ExpressiblePrintable(v); }
  }

  // ---------- What a call's arguments are bound as ----------

  /** Values the program treats as absent. */
  predicate Falsy(v: Json) {
    v == Null || v == Bool(false) || v == Number([48]) || v == NonFinite(true) || v == Str([])
  }

  const EMPTY_OBJECT := Obj(NoField)

  /** Missing and falsy arguments are bound as the empty object. */
  function BoundArguments(args: Option<Json>): Json {
    if args.None? || Falsy(args.value) then EMPTY_OBJECT else args.value
  }

  function ArgumentsText(args: Option<Json>): Result<Text, CanonicalError> {
    CanonicalText(BoundArguments(args), MAX_BINDING_BYTES)
  }

  predicate CountsAsEmpty(args: Option<Json>) { args.None? || Falsy(args.value) || args.value == EMPTY_OBJECT }

  /**
    Two argument values have the same binding exactly when they are the same JSON up to key order, or both count as empty:
    the promise that only equal arguments share a binding fails for null, false, 0 and the empty string.
   */
  lemma ArgumentsBoundIff(a: Option<Json>, b: Option<Json>)
    requires (a.Some? ==> WellFormed(a.value)) && (b.Some? ==> WellFormed(b.value))
    requires ArgumentsText(a).Ok?
    ensures ArgumentsText(a) == ArgumentsText(b)
       <==> if CountsAsEmpty(a) then CountsAsEmpty(b) else !CountsAsEmpty(b) && Same(a.value, b.value)
  {
    var x, y := BoundArguments(a), BoundArguments(b);
    CanonicalTextIffSame(x, y, MAX_BINDING_BYTES);
    if CountsAsEmpty(a) { SameAsEmpty(y); } else if CountsAsEmpty(b) { EmptyAsSame(x); }
  }

  lemma SameAsEmpty(v: Json)
    ensures Same(EMPTY_OBJECT, v) <==> v == EMPTY_OBJECT
  {
    if v.Obj? && v.fields.Field? { assert HasKey(v.fields, v.fields.key); }
  }

  lemma EmptyAsSame(v: Json)
    ensures Same(v, EMPTY_OBJECT) <==> v == EMPTY_OBJECT
  {
    if v.Obj? && v.fields.Field? { assert HasKey(v.fields, v.fields.key); }
  }
}
