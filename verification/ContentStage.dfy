/**
  The staging area for large texts: owner-bound stages that grow chunk by chunk under quotas, are sealed, read back and
  released, and expire.
 */
module ContentStage {
  import opened Results
  import opened Streams
  import opened CanonicalJson

  const CHUNK_MAX_CHARS := 8192

  /** One row of the stage table together with its rows of the chunk table, by sequence number. */
  datatype Row = Row(id: nat, owner: string, sealed: bool, expiresAt: int, chars: int, bytes: int, next: int,
                     digest: Option<Text>, chunks: map<int, Text>)

  datatype Limits = Limits(maxStageBytes: int, maxOwnerBytes: int, maxOwnerStages: int)

  datatype StageError =
    | CountLimit | OwnerSizeLimit | ChunkLimit | InvalidText | SequenceInvalid | NotFound | NotOpen | SequenceConflict
    | StageSizeLimit | IntegrityMismatch | NotSealed

  datatype Op =
    | Create(id: nat)
    | Append(id: nat, sequence: int, chunk: Text)
    | Seal(id: nat, expectedChars: Option<int>, expectedContent: Option<Text>)
    | Status(id: nat)
    | Release(id: nat)
    | Read(id: nat)

  datatype Answer = Stage(row: Row) | Content(text: Text) | Failed(error: StageError)

  datatype Outcome = Outcome(rows: seq<Row>, answer: Answer)

  /** Two clock readings of one call, and the retention period. */
  datatype Env = Env(now: int, later: int, retention: int)

  function HasUnpairedSurrogate(t: Text): bool {
    if t == [] then false
    else if Paired(t) then HasUnpairedSurrogate(t[2..])
    else High(t[0]) || Low(t[0]) || HasUnpairedSurrogate(t[1..])
  }

  // ---------- The table ----------

  function Prune(rows: seq<Row>, t: int): seq<Row> {
    if rows == [] then []
    else if rows[0].expiresAt <= t then Prune(rows[1..], t) else [rows[0]] + Prune(rows[1..], t)
  }

  function FindOwned(rows: seq<Row>, id: nat, owner: string): Option<Row> {
    if rows == [] then None
    else if rows[0].id == id && rows[0].owner == owner then Some(rows[0]) else FindOwned(rows[1..], id, owner)
  }

  /** The row with the id of `row` becomes `row`. */
  function Update(rows: seq<Row>, row: Row): seq<Row> {
    if rows == [] then []
    else if rows[0].id == row.id && rows[0].owner == row.owner then [row] + rows[1..] else [rows[0]] + Update(rows[1..], row)
  }

  function Delete(rows: seq<Row>, id: nat, owner: string): seq<Row> {
    if rows == [] then []
    else if rows[0].id == id && rows[0].owner == owner then rows[1..] else [rows[0]] + Delete(rows[1..], id, owner)
  }

  function OwnerBytes(rows: seq<Row>, owner: string): int {
    if rows == [] then 0 else (if rows[0].owner == owner then rows[0].bytes else 0) + OwnerBytes(rows[1..], owner)
  }

  function OwnerStages(rows: seq<Row>, owner: string): nat {
    if rows == [] then 0 else (if rows[0].owner == owner then 1 else 0) + OwnerStages(rows[1..], owner)
  }

  /** The chunks below `k` in order of their sequence numbers. */
  function Concatenated(chunks: map<int, Text>, k: nat): Text {
    if k == 0 then [] else Concatenated(chunks, k - 1) + (if k - 1 in chunks then chunks[k - 1] else [])
  }

  function ContentOf(row: Row): Text { Concatenated(row.chunks, if row.next >= 0 then row.next else 0) }

  // ---------- The operations ----------

  function Created(rows: seq<Row>, owner: string, id: nat, e: Env, limits: Limits): Outcome {
    var live := Prune(Prune(rows, e.now), e.later);
    if OwnerStages(live, owner) >= limits.maxOwnerStages then Outcome(Prune(rows, e.now), Failed(CountLimit))
    else if OwnerBytes(live, owner) >= limits.maxOwnerBytes then Outcome(Prune(rows, e.now), Failed(OwnerSizeLimit))
    else
      var row := Row(id, owner, false, e.later + e.retention, 0, 0, 0, None, map[]);
      Outcome(live + [row], Stage(row))
  }

  function Grown(row: Row, chunk: Text, e: Env): Row {
    row.(chunks := row.chunks[row.next := chunk], chars := row.chars + |chunk|, bytes := row.bytes + TextBytes(chunk),
         next := row.next + 1, expiresAt := e.later + e.retention)
  }

  function Appended(rows: seq<Row>, owner: string, id: nat, sequence: int, chunk: Text, e: Env, limits: Limits): Outcome {
    var live := Prune(rows, e.now);
    var row := FindOwned(live, id, owner);
    if |chunk| > CHUNK_MAX_CHARS then Outcome(live, Failed(ChunkLimit))
    else if HasUnpairedSurrogate(chunk) then Outcome(live, Failed(InvalidText))
    else if sequence < 0 then Outcome(live, Failed(SequenceInvalid))
    else if row.None? then Outcome(live, Failed(NotFound))
    else if row.value.sealed then Outcome(live, Failed(NotOpen))
    else if sequence != row.value.next then Outcome(live, Failed(SequenceConflict))
    else if row.value.bytes + TextBytes(chunk) > limits.maxStageBytes then Outcome(live, Failed(StageSizeLimit))
    else if OwnerBytes(live, owner) + TextBytes(chunk) > limits.maxOwnerBytes then Outcome(live, Failed(OwnerSizeLimit))
    else Outcome(Update(live, Grown(row.value, chunk, e)), Stage(Grown(row.value, chunk, e)))
  }

  function SealedRow(row: Row, e: Env): Row {
    row.(sealed := true, digest := Some(ContentOf(row)), expiresAt := e.later + e.retention)
  }

  function Sealed(rows: seq<Row>, owner: string, id: nat, expectedChars: Option<int>, expectedContent: Option<Text>, e: Env)
    : Outcome
  {
    var live := Prune(rows, e.now);
    var row := FindOwned(live, id, owner);
    if row.None? then Outcome(live, Failed(NotFound))
    else if row.value.sealed then Outcome(live, Failed(NotOpen))
    else if expectedChars.Some? && expectedChars.value != row.value.chars then Outcome(live, Failed(IntegrityMismatch))
    else if expectedContent.Some? && expectedContent.value != ContentOf(row.value) then Outcome(live, Failed(IntegrityMismatch))
    else Outcome(Update(live, SealedRow(row.value, e)), Stage(SealedRow(row.value, e)))
  }

  function Looked(rows: seq<Row>, owner: string, id: nat, e: Env): Outcome {
    var row := FindOwned(Prune(rows, e.now), id, owner);
    Outcome(Prune(rows, e.now), if row.None? then Failed(NotFound) else Stage(row.value))
  }

  /** Releasing does not prune: even an expired stage can be released. */
  function Released(rows: seq<Row>, owner: string, id: nat): Outcome {
    var row := FindOwned(rows, id, owner);
    if row.None? then Outcome(rows, Failed(NotFound)) else Outcome(Delete(rows, id, owner), Stage(row.value))
  }

  function ReadBack(rows: seq<Row>, owner: string, id: nat, e: Env): Outcome {
    var row := FindOwned(Prune(rows, e.now), id, owner);
    Outcome(Prune(rows, e.now),
            if row.None? then Failed(NotFound) else if !row.value.sealed then Failed(NotSealed) else Content(ContentOf(row.value)))
  }

  function Apply(rows: seq<Row>, owner: string, op: Op, e: Env, limits: Limits): Outcome {
    match op
    case Create(id) => Created(rows, owner, id, e, limits)
    case Append(id, sequence, chunk) => Appended(rows, owner, id, sequence, chunk, e, limits)
    case Seal(id, chars, content) => Sealed(rows, owner, id, chars, content, e)
    case Status(id) => Looked(rows, owner, id, e)
    case Release(id) => Released(rows, owner, id)
    case Read(id) => ReadBack(rows, owner, id, e)
  }

  // ---------- The invariant ----------

  /** Counters agree with the content that is read back, and the digest with what was sealed. */
  ghost predicate RowOk(row: Row, limits: Limits) {
    && row.next >= 0 && (forall k :: k in row.chunks <==> 0 <= k < row.next)
    && row.chars == |ContentOf(row)| && row.bytes == TextBytes(ContentOf(row)) && row.bytes <= limits.maxStageBytes
    && row.digest == (if row.sealed then Some(ContentOf(row)) else None)
    && !HasUnpairedSurrogate(ContentOf(row))
  }

  ghost predicate UniqueIds(rows: seq<Row>) { forall i, j :: 0 <= i < j < |rows| ==> rows[i].id != rows[j].id }

  ghost predicate QuotasHold(rows: seq<Row>, limits: Limits) {
    forall owner :: OwnerBytes(rows, owner) <= limits.maxOwnerBytes && OwnerStages(rows, owner) <= limits.maxOwnerStages
  }

  ghost predicate Consistent(rows: seq<Row>, limits: Limits) {
    UniqueIds(rows) && QuotasHold(rows, limits) && forall r :: r in rows ==> RowOk(r, limits)
  }

  predicate LimitsOk(l: Limits) { 0 < l.maxStageBytes <= l.maxOwnerBytes && l.maxOwnerStages > 0 }

  // ---------- What the table operations do ----------

  ghost predicate HasId(rows: seq<Row>, id: nat) { exists r :: r in rows && r.id == id }

  lemma ConsOf(rows: seq<Row>)
    requires rows != []
    ensures forall r :: r in rows <==> r == rows[0] || r in rows[1..]
    ensures UniqueIds(rows) <==> UniqueIds(rows[1..]) && !HasId(rows[1..], rows[0].id)
  {
    var rest := rows[1..];
    if UniqueIds(rest) && !HasId(rest, rows[0].id) {
      forall i, j | 0 <= i < j < |rows| ensures rows[i].id != rows[j].id {
        assert rows[j] == rest[j - 1] && rest[j - 1] in rest;
        assert i > 0 ==> rows[i] == rest[i - 1];
      }
    }
    if UniqueIds(rows) {
      forall i, j | 0 <= i < j < |rest| ensures rest[i].id != rest[j].id { assert rows[i + 1].id != rows[j + 1].id; }
      forall r | r in rest ensures r.id != rows[0].id {
        var j :| 0 <= j < |rest| && rest[j] == r;
        assert rows[0].id != rows[j + 1].id;
      }
    }
  }

  /** `part` is `rows` with some rows gone. */
  ghost predicate Fewer(part: seq<Row>, rows: seq<Row>) {
    && (forall r :: r in part ==> r in rows) && (UniqueIds(rows) ==> UniqueIds(part))
    && ((forall r :: r in rows ==> r.bytes >= 0) ==> forall o :: OwnerBytes(part, o) <= OwnerBytes(rows, o))
    && (forall o :: OwnerStages(part, o) <= OwnerStages(rows, o))
  }

  lemma FewerCons(part: seq<Row>, rows: seq<Row>, rest: seq<Row>)
    requires rows != [] && rest == rows[1..] && Fewer(part, rest)
    ensures Fewer(part, rows) && Fewer([rows[0]] + part, rows)
  {
    SumsCons(part, rows, rest);
    ConsOf(rows);
    var longer := [rows[0]] + part;
    assert longer[1..] == part;
    ConsOf(longer);
  }

  lemma SumsCons(part: seq<Row>, rows: seq<Row>, rest: seq<Row>)
    requires rows != [] && rest == rows[1..] && Fewer(part, rest)
    ensures var longer := [rows[0]] + part; forall o :: OwnerStages(longer, o) <= OwnerStages(rows, o)
    ensures forall o :: OwnerStages(part, o) <= OwnerStages(rows, o)
    ensures (forall r :: r in rows ==> r.bytes >= 0) ==> var longer := [rows[0]] + part;
      forall o :: OwnerBytes(longer, o) <= OwnerBytes(rows, o) && OwnerBytes(part, o) <= OwnerBytes(rows, o)
  {
    var longer := [rows[0]] + part;
    assert longer[1..] == part;
    if forall r :: r in rows ==> r.bytes >= 0 { assert rows[0] in rows && forall r :: r in rest ==> r in rows; }
  }

  lemma {:induction false} PruneFewer(rows: seq<Row>, t: int)
    ensures Fewer(Prune(rows, t), rows) && (forall r :: r in Prune(rows, t) <==> r in rows && r.expiresAt > t)
  {
    if rows != [] {
      PruneFewer(rows[1..], t);
      ConsOf(rows);
      FewerCons(Prune(rows[1..], t), rows, rows[1..]);
    }
  }

  lemma {:induction false} DeleteFewer(rows: seq<Row>, id: nat, owner: string)
    ensures Fewer(Delete(rows, id, owner), rows)
    ensures forall r :: r in rows && (r.id != id || r.owner != owner) ==> r in Delete(rows, id, owner)
    ensures UniqueIds(rows) && FindOwned(rows, id, owner).Some? ==> !HasId(Delete(rows, id, owner), id)
  {
    if rows != [] {
      ConsOf(rows);
      if rows[0].id == id && rows[0].owner == owner {
        RestFewer(rows);
      } else {
        DeleteFewer(rows[1..], id, owner);
        FewerCons(Delete(rows[1..], id, owner), rows, rows[1..]);
        if UniqueIds(rows) && FindOwned(rows, id, owner).Some? { FoundIn(rows[1..], id, owner); }
      }
    }
  }

  lemma RestFewer(rows: seq<Row>)
    requires rows != []
    ensures Fewer(rows[1..], rows)
  {
    ConsOf(rows);
    assert Fewer(rows[1..], rows[1..]);
    FewerCons(rows[1..], rows, rows[1..]);
  }

  lemma {:induction false} FoundIn(rows: seq<Row>, id: nat, owner: string)
    ensures match FindOwned(rows, id, owner)
      case Some(r) => r in rows && r.id == id && r.owner == owner
      case None => forall r :: r in rows ==> r.id != id || r.owner != owner
  {
    if rows != [] {
      ConsOf(rows);
      FoundIn(rows[1..], id, owner);
    }
  }

  /** An update changes one row and the sums of its owner. */
  lemma {:induction false} UpdateIs(rows: seq<Row>, row: Row, was: Row)
    requires FindOwned(rows, row.id, row.owner) == Some(was) && UniqueIds(rows)
    ensures UniqueIds(Update(rows, row))
    ensures forall r :: r in Update(rows, row) <==> r == row || (r in rows && r.id != row.id)
    ensures forall o :: OwnerStages(Update(rows, row), o) == OwnerStages(rows, o)
    ensures forall o :: OwnerBytes(Update(rows, row), o) == OwnerBytes(rows, o) + if o == row.owner then row.bytes - was.bytes else 0
  {
    ConsOf(rows);
    var after := Update(rows, row);
    if rows[0].id == row.id && rows[0].owner == row.owner {
      assert after[1..] == rows[1..];
      ConsOf(after);
    } else {
      FoundIn(rows[1..], row.id, row.owner);
      UpdateIs(rows[1..], row, was);
      assert after[1..] == Update(rows[1..], row);
      ConsOf(after);
    }
  }

  lemma {:induction false} SnocSums(rows: seq<Row>, row: Row, o: string)
    ensures OwnerBytes(rows + [row], o) == OwnerBytes(rows, o) + if row.owner == o then row.bytes else 0
    ensures OwnerStages(rows + [row], o) == OwnerStages(rows, o) + if row.owner == o then 1 else 0
  {
    if rows == [] {
      assert rows + [row] == [row];
    } else {
      assert (rows + [row])[1..] == rows[1..] + [row];
      SnocSums(rows[1..], row, o);
    }
  }

  // ---------- Content ----------

  lemma {:induction false} BytesAdd(a: Text, b: Text)
    ensures TextBytes(a + b) == TextBytes(a) + TextBytes(b)
  {
    if a == [] {
      assert a + b == b;
    } else {
      assert (a + b)[1..] == a[1..] + b;
      BytesAdd(a[1..], b);
    }
  }

  /** Texts without unpaired surrogates can be joined: no pair is split between chunks. */
  lemma {:induction false} PairedJoins(a: Text, b: Text)
    requires !HasUnpairedSurrogate(a) && !HasUnpairedSurrogate(b)
    ensures !HasUnpairedSurrogate(a + b)
    decreases |a|
  {
    if a == [] {
      assert a + b == b;
    } else if Paired(a) {
      assert (a + b)[2..] == a[2..] + b;
      PairedJoins(a[2..], b);
    } else {
      assert (a + b)[1..] == a[1..] + b;
      PairedJoins(a[1..], b);
    }
  }

  lemma {:induction false} SamePrefix(chunks: map<int, Text>, more: Text, n: nat, k: nat)
    requires k <= n
    ensures Concatenated(chunks[n := more], k) == Concatenated(chunks, k)
  {
    if k > 0 { SamePrefix(chunks, more, n, k - 1); }
  }

  /** Appending a chunk appends to what is read back. */
  lemma GrownContent(row: Row, chunk: Text, e: Env)
    requires row.next >= 0
    ensures ContentOf(Grown(row, chunk, e)) == ContentOf(row) + chunk
  {
    SamePrefix(row.chunks, chunk, row.next, row.next);
  }

  lemma GrownOk(row: Row, chunk: Text, e: Env, limits: Limits)
    requires RowOk(row, limits) && !row.sealed && !HasUnpairedSurrogate(chunk)
    requires row.bytes + TextBytes(chunk) <= limits.maxStageBytes
    ensures RowOk(Grown(row, chunk, e), limits)
  {
    GrownContent(row, chunk, e);
    BytesAdd(ContentOf(row), chunk);
    PairedJoins(ContentOf(row), chunk);
  }

  // ---------- Every operation keeps the invariant ----------

  lemma FewerConsistent(part: seq<Row>, rows: seq<Row>, limits: Limits)
    requires Consistent(rows, limits) && Fewer(part, rows)
    ensures Consistent(part, limits)
  {
    forall o ensures OwnerBytes(part, o) <= limits.maxOwnerBytes && OwnerStages(part, o) <= limits.maxOwnerStages {
      assert OwnerBytes(rows, o) <= limits.maxOwnerBytes && OwnerStages(rows, o) <= limits.maxOwnerStages;
      assert OwnerStages(part, o) <= OwnerStages(rows, o);
    }
  }

  lemma PruneConsistent(rows: seq<Row>, t: int, limits: Limits)
    requires Consistent(rows, limits)
    ensures Consistent(Prune(rows, t), limits)
  {
    PruneFewer(rows, t);
    FewerConsistent(Prune(rows, t), rows, limits);
  }

  lemma CreateConsistent(rows: seq<Row>, owner: string, id: nat, e: Env, limits: Limits)
    requires Consistent(rows, limits) && !HasId(rows, id) && LimitsOk(limits)
    ensures Consistent(Created(rows, owner, id, e, limits).rows, limits)
  {
    PruneConsistent(rows, e.now, limits);
    PruneConsistent(Prune(rows, e.now), e.later, limits);
    PruneFewer(rows, e.now);
    PruneFewer(Prune(rows, e.now), e.later);
    var live := Prune(Prune(rows, e.now), e.later);
    if Created(rows, owner, id, e, limits).answer.Stage? {
      var row := Created(rows, owner, id, e, limits).answer.row;
      var after := live + [row];
      assert ContentOf(row) == [];
      forall o ensures OwnerBytes(after, o) <= limits.maxOwnerBytes && OwnerStages(after, o) <= limits.maxOwnerStages {
        SnocSums(live, row, o);
        assert OwnerBytes(live, o) <= limits.maxOwnerBytes;
      }
      forall i | 0 <= i < |live| ensures live[i].id != id { assert live[i] in live && live[i] in rows; }
    }
  }

  lemma UpdateConsistent(rows: seq<Row>, row: Row, was: Row, limits: Limits)
    requires Consistent(rows, limits) && FindOwned(rows, row.id, row.owner) == Some(was) && RowOk(row, limits)
    requires OwnerBytes(rows, row.owner) + row.bytes - was.bytes <= limits.maxOwnerBytes
    ensures Consistent(Update(rows, row), limits)
  {
    UpdateIs(rows, row, was);
    var after := Update(rows, row);
    forall o ensures OwnerBytes(after, o) <= limits.maxOwnerBytes && OwnerStages(after, o) <= limits.maxOwnerStages {
      assert OwnerBytes(rows, o) <= limits.maxOwnerBytes && OwnerStages(rows, o) <= limits.maxOwnerStages;
    }
  }

  /** Counters, digests, ids and quotas hold after every operation, whether it succeeds or not. */
  lemma ApplyConsistent(rows: seq<Row>, owner: string, op: Op, e: Env, limits: Limits)
    requires Consistent(rows, limits) && LimitsOk(limits) && (op.Create? ==> !HasId(rows, op.id))
    ensures Consistent(Apply(rows, owner, op, e, limits).rows, limits)
  {
    PruneConsistent(rows, e.now, limits);
    var live := Prune(rows, e.now);
    match op
    case Create(id) => CreateConsistent(rows, owner, id, e, limits);
    case Append(id, sequence, chunk) =>
      FoundIn(live, id, owner);
      if Appended(rows, owner, id, sequence, chunk, e, limits).answer.Stage? {
        var row := FindOwned(live, id, owner).value;
        GrownOk(row, chunk, e, limits);
        UpdateConsistent(live, Grown(row, chunk, e), row, limits);
      }
    case Seal(id, chars, content) =>
      FoundIn(live, id, owner);
      if Sealed(rows, owner, id, chars, content, e).answer.Stage? {
        var row := FindOwned(live, id, owner).value;
        assert ContentOf(SealedRow(row, e)) == ContentOf(row);
        assert OwnerBytes(live, owner) <= limits.maxOwnerBytes;
        UpdateConsistent(live, SealedRow(row, e), row, limits);
      }
    case Release(id) =>
      DeleteFewer(rows, id, owner);
      FewerConsistent(Delete(rows, id, owner), rows, limits);
    case _ =>
  }

  // ---------- Whose rows an operation touches ----------

  lemma FoundIff(rows: seq<Row>, id: nat, owner: string, r: Row)
    requires UniqueIds(rows)
    ensures FindOwned(rows, id, owner) == Some(r) <==> r in rows && r.id == id && r.owner == owner
  {
    FoundIn(rows, id, owner);
    if r in rows && r.id == id && r.owner == owner {
      var f := FindOwned(rows, id, owner).value;
      var i :| 0 <= i < |rows| && rows[i] == r;
      var j :| 0 <= j < |rows| && rows[j] == f;
      assert i == j;
    }
  }

  /** The row an accepted operation writes, if it writes one. */
  function Written(rows: seq<Row>, owner: string, op: Op, e: Env, limits: Limits): Option<Row> {
    var answer := Apply(rows, owner, op, e, limits).answer;
    if answer.Stage? && (op.Create? || op.Append? || op.Seal?) then Some(answer.row) else None
  }

  /** At most the row `id` of `owner` differs (it is then `written`), and otherwise rows have at most expired. */
  ghost predicate TouchesOnly(rows: seq<Row>, after: seq<Row>, written: Option<Row>, owner: string, id: nat, later: int) {
    && (written.Some? ==> written.value.id == id && written.value.owner == owner && written.value in after)
    && (forall r :: r in after ==> Some(r) == written || r in rows)
    && (forall r :: r in rows && r !in after ==> r.expiresAt <= later || (r.id == id && r.owner == owner))
  }

  lemma PruneTouches(rows: seq<Row>, owner: string, id: nat, e: Env)
    requires e.now <= e.later
    ensures TouchesOnly(rows, Prune(rows, e.now), None, owner, id, e.later)
  {
    PruneFewer(rows, e.now);
  }

  lemma UpdateTouches(rows: seq<Row>, row: Row, owner: string, e: Env)
    requires e.now <= e.later && UniqueIds(Prune(rows, e.now)) && row.owner == owner
    requires FindOwned(Prune(rows, e.now), row.id, owner).Some?
    ensures TouchesOnly(rows, Update(Prune(rows, e.now), row), Some(row), owner, row.id, e.later)
  {
    var live := Prune(rows, e.now);
    PruneFewer(rows, e.now);
    var was := FindOwned(live, row.id, owner).value;
    UpdateIs(live, row, was);
    FoundIn(live, row.id, owner);
    forall r | r in live && r.id == row.id ensures r.owner == owner { SameId(live, r, was); }
  }

  lemma CreateTouches(rows: seq<Row>, row: Row, owner: string, e: Env)
    requires e.now <= e.later && row.owner == owner
    ensures TouchesOnly(rows, Prune(Prune(rows, e.now), e.later) + [row], Some(row), owner, row.id, e.later)
  {
    PruneFewer(rows, e.now);
    PruneFewer(Prune(rows, e.now), e.later);
  }

  /** What becomes of the rows of the table. */
  lemma RowFate(rows: seq<Row>, owner: string, op: Op, e: Env, limits: Limits)
    requires Consistent(rows, limits) && e.now <= e.later
    ensures TouchesOnly(rows, Apply(rows, owner, op, e, limits).rows, Written(rows, owner, op, e, limits), owner, op.id, e.later)
  {
    var written := Written(rows, owner, op, e, limits);
    PruneTouches(rows, owner, op.id, e);
    PruneConsistent(rows, e.now, limits);
    if written.Some? {
      FoundIn(Prune(rows, e.now), op.id, owner);
      if op.Create? { CreateTouches(rows, written.value, owner, e); } else { UpdateTouches(rows, written.value, owner, e); }
    } else if op.Release? {
      DeleteFewer(rows, op.id, owner);
    }
  }

  /** What another owner stored is never changed by a call; it can only expire. */
  lemma OwnersAreIsolated(rows: seq<Row>, owner: string, op: Op, e: Env, limits: Limits, r: Row)
    requires Consistent(rows, limits) && e.now <= e.later && (op.Create? ==> !HasId(rows, op.id)) && r.owner != owner
    ensures var after := Apply(rows, owner, op, e, limits).rows;
      && (r in after ==> r in rows) && (r in rows && r.expiresAt > e.later ==> r in after)
  {
    RowFate(rows, owner, op, e, limits);
  }

  /** A sealed stage stays exactly as it is until its owner releases it or it expires. */
  lemma SealedIsImmutable(rows: seq<Row>, owner: string, op: Op, e: Env, limits: Limits, r: Row)
    requires Consistent(rows, limits) && e.now <= e.later && (op.Create? ==> !HasId(rows, op.id)) && r in rows && r.sealed
    ensures var after := Apply(rows, owner, op, e, limits).rows;
      r in after || (op == Release(r.id) && owner == r.owner) || r.expiresAt <= e.later
    ensures forall o :: o in Apply(rows, owner, op, e, limits).rows && o.id == r.id ==> o == r
  {
    RowFate(rows, owner, op, e, limits);
    SealedNotWritten(rows, owner, op, e, limits, r);
    forall o | o in Apply(rows, owner, op, e, limits).rows && o.id == r.id ensures o == r { SameId(rows, o, r); }
    if r.id == op.id && r.owner == owner && !op.Release? && r.expiresAt > e.later { SealedStays(rows, owner, op, e, limits, r); }
  }

  lemma SameId(rows: seq<Row>, a: Row, b: Row)
    requires UniqueIds(rows)
    ensures a in rows && b in rows && a.id == b.id ==> a == b
  {
    if a in rows && b in rows && a.id == b.id {
      var i :| 0 <= i < |rows| && rows[i] == a;
      var j :| 0 <= j < |rows| && rows[j] == b;
    }
  }

  lemma SealedNotWritten(rows: seq<Row>, owner: string, op: Op, e: Env, limits: Limits, r: Row)
    requires Consistent(rows, limits) && (op.Create? ==> !HasId(rows, op.id)) && r in rows && r.sealed
    ensures var written := Written(rows, owner, op, e, limits); written.Some? ==> written.value.id != r.id
  {
    PruneFewer(rows, e.now);
    var found := FindOwned(Prune(rows, e.now), op.id, owner);
    FoundIn(Prune(rows, e.now), op.id, owner);
    if found.Some? { SameId(rows, found.value, r); }
  }

  lemma SealedStays(rows: seq<Row>, owner: string, op: Op, e: Env, limits: Limits, r: Row)
    requires Consistent(rows, limits) && e.now <= e.later && (op.Create? ==> !HasId(rows, op.id)) && r in rows && r.sealed
    requires !op.Release? && r.expiresAt > e.later && r.id == op.id && r.owner == owner
    ensures r in Apply(rows, owner, op, e, limits).rows
  {
    PruneConsistent(rows, e.now, limits);
    PruneFewer(rows, e.now);
    FoundIff(Prune(rows, e.now), op.id, owner, r);
  }

  /** A refused call changes nothing but what has expired. */
  lemma RefusalChangesNothing(rows: seq<Row>, owner: string, op: Op, e: Env, limits: Limits)
    requires Apply(rows, owner, op, e, limits).answer.Failed?
    ensures Apply(rows, owner, op, e, limits).rows == if op.Release? then rows else Prune(rows, e.now)
  {
  }

  // ---------- Runs: what is read is what was appended ----------

  datatype Call = Call(owner: string, op: Op, env: Env)

  ghost predicate StepAt(run: seq<seq<Row>>, calls: seq<Call>, limits: Limits, i: nat)
    requires i < |calls| < |run|
  {
    run[i + 1] == Apply(run[i], calls[i].owner, calls[i].op, calls[i].env, limits).rows
  }

  /** Ids are drawn once, and the clock does not run backwards within a call. */
  ghost predicate IsRun(run: seq<seq<Row>>, calls: seq<Call>, limits: Limits) {
    && |run| == |calls| + 1 && run[0] == [] && LimitsOk(limits)
    && (forall i :: 0 <= i < |calls| ==> StepAt(run, calls, limits, i))
    && (forall i :: 0 <= i < |calls| ==> calls[i].env.now <= calls[i].env.later)
    && (forall i, j :: 0 <= i < j < |calls| && calls[i].op.Create? && calls[j].op.Create? ==> calls[i].op.id != calls[j].op.id)
  }

  ghost predicate CreatedBefore(calls: seq<Call>, k: nat, id: nat) {
    exists i :: 0 <= i < k && i < |calls| && calls[i].op == Create(id)
  }

  lemma {:induction false} RunConsistent(run: seq<seq<Row>>, calls: seq<Call>, limits: Limits, k: nat)
    requires IsRun(run, calls, limits) && k <= |calls|
    ensures Consistent(run[k], limits) && forall r :: r in run[k] ==> CreatedBefore(calls, k, r.id)
  {
    if k > 0 {
      RunConsistent(run, calls, limits, k - 1);
      var c := calls[k - 1];
      NewIdsAreNew(run[k - 1], calls, k - 1);
      assert StepAt(run, calls, limits, k - 1);
      ApplyConsistent(run[k - 1], c.owner, c.op, c.env, limits);
      forall r | r in run[k] ensures CreatedBefore(calls, k, r.id) {
        RowFate(run[k - 1], c.owner, c.op, c.env, limits);
        WrittenIsCreated(run[k - 1], c.owner, c.op, c.env, limits);
        if r in run[k - 1] { assert CreatedBefore(calls, k - 1, r.id); }
      }
    }
  }

  lemma NewIdsAreNew(rows: seq<Row>, calls: seq<Call>, k: nat)
    requires k < |calls| && forall r :: r in rows ==> CreatedBefore(calls, k, r.id)
    requires forall i, j :: 0 <= i < j < |calls| && calls[i].op.Create? && calls[j].op.Create? ==> calls[i].op.id != calls[j].op.id
    ensures calls[k].op.Create? ==> !HasId(rows, calls[k].op.id)
  {
  }

  /** A written row is newly created or continues one that was there. */
  lemma WrittenIsCreated(rows: seq<Row>, owner: string, op: Op, e: Env, limits: Limits)
    ensures var w := Written(rows, owner, op, e, limits);
      w.Some? && !op.Create? ==> w.value.id == op.id && HasId(rows, op.id)
    ensures var w := Written(rows, owner, op, e, limits); w.Some? && op.Create? ==> w.value.id == op.id
  {
    PruneFewer(rows, e.now);
    FoundIn(Prune(rows, e.now), op.id, owner);
  }

  /** The text of the accepted chunks for this stage in the calls from `i` to `j`. */
  function AcceptedText(run: seq<seq<Row>>, calls: seq<Call>, limits: Limits, owner: string, id: nat, i: nat, j: nat): Text
    requires i <= j <= |calls| < |run|
  {
    if i == j then []
    else AcceptedText(run, calls, limits, owner, id, i, j - 1) + AcceptedChunk(run[j - 1], calls[j - 1], limits, owner, id)
  }

  function AcceptedChunk(rows: seq<Row>, c: Call, limits: Limits, owner: string, id: nat): Text {
    if c.owner == owner && c.op.Append? && c.op.id == id && Apply(rows, c.owner, c.op, c.env, limits).answer.Stage? then c.op.chunk
    else []
  }

  ghost predicate Extends(rows: seq<Row>, c: Call, limits: Limits, b: Row, r: Row) {
    b.id == r.id && b.owner == r.owner && ContentOf(r) == ContentOf(b) + AcceptedChunk(rows, c, limits, r.owner, r.id)
  }

  /** One call extends the content of a stage by the chunk it got accepted for it, and by nothing else. */
  lemma StepContent(rows: seq<Row>, c: Call, limits: Limits, r: Row)
    requires Consistent(rows, limits) && c.env.now <= c.env.later && LimitsOk(limits) && (c.op.Create? ==> !HasId(rows, c.op.id))
    requires r in Apply(rows, c.owner, c.op, c.env, limits).rows && c.op != Create(r.id)
    ensures exists b :: b in rows && Extends(rows, c, limits, b, r)
  {
    var written := Written(rows, c.owner, c.op, c.env, limits);
    RowFate(rows, c.owner, c.op, c.env, limits);
    if Some(r) == written {
      PruneFewer(rows, c.env.now);
      FoundIn(Prune(rows, c.env.now), c.op.id, c.owner);
      var b := FindOwned(Prune(rows, c.env.now), c.op.id, c.owner).value;
      assert RowOk(b, limits);
      if c.op.Append? { GrownContent(b, c.op.chunk, c.env); }
      assert b in rows && Extends(rows, c, limits, b, r);
    } else {
      assert r in rows;
      NotWrittenNotAccepted(rows, c, limits, r);
      assert Extends(rows, c, limits, r, r);
    }
  }

  lemma NotWrittenNotAccepted(rows: seq<Row>, c: Call, limits: Limits, r: Row)
    requires Consistent(rows, limits) && c.env.now <= c.env.later && LimitsOk(limits) && (c.op.Create? ==> !HasId(rows, c.op.id))
    requires r in Apply(rows, c.owner, c.op, c.env, limits).rows && r in rows && Some(r) != Written(rows, c.owner, c.op, c.env, limits)
    ensures AcceptedChunk(rows, c, limits, r.owner, r.id) == []
  {
    var written := Written(rows, c.owner, c.op, c.env, limits);
    WrittenIsCreated(rows, c.owner, c.op, c.env, limits);
    if written.Some? && written.value.id == r.id {
      RowFate(rows, c.owner, c.op, c.env, limits);
      ApplyConsistent(rows, c.owner, c.op, c.env, limits);
      SameId(Apply(rows, c.owner, c.op, c.env, limits).rows, r, written.value);
    }
  }

  /** In every run a stage holds exactly the accepted chunks, in order, since it was created. */
  lemma {:induction false} StageHoldsWhatWasAppended(run: seq<seq<Row>>, calls: seq<Call>, limits: Limits, i: nat, j: nat, r: Row)
    requires IsRun(run, calls, limits) && i < j <= |calls| && calls[i].op == Create(r.id) && r in run[j]
    ensures ContentOf(r) == AcceptedText(run, calls, limits, r.owner, r.id, i + 1, j)
  {
    var c := calls[j - 1];
    RunConsistent(run, calls, limits, j - 1);
    NewIdsAreNew(run[j - 1], calls, j - 1);
    assert StepAt(run, calls, limits, j - 1);
    if i + 1 == j {
      RowFate(run[i], c.owner, c.op, c.env, limits);
      assert !HasId(run[i], r.id);
    } else {
      StepContent(run[j - 1], c, limits, r);
      var b :| b in run[j - 1] && Extends(run[j - 1], c, limits, b, r);
      StageHoldsWhatWasAppended(run, calls, limits, i, j - 1, b);
    }
  }

  // ---------- The manager ----------

  class StageManager {
    const limits: Limits
    const retention: int
    var rows: seq<Row>

    ghost predicate Valid()
      reads this
    {
      Consistent(rows, limits) && LimitsOk(limits)
    }

    constructor (limits: Limits, retention: int)
      requires LimitsOk(limits)
      ensures Valid() && rows == [] && this.limits == limits && this.retention == retention
    {
      this.limits, this.retention, rows := limits, retention, [];
      new;
      forall o ensures OwnerBytes(rows, o) <= limits.maxOwnerBytes && OwnerStages(rows, o) <= limits.maxOwnerStages { }
    }

    method PruneExpired(now: int)
      modifies this
      ensures rows == Prune(old(rows), now)
    {
      rows := Prune(rows, now);
    }

    method Create(owner: string, id: nat, now: int, later: int) returns (answer: Answer)
      requires Valid() && !HasId(rows, id)
      modifies this
      ensures Valid() && Outcome(rows, answer) == Apply(old(rows), owner, Op.Create(id), Env(now, later, retention), limits)
    {
      ApplyConsistent(rows, owner, Op.Create(id), Env(now, later, retention), limits);
      PruneExpired(now);
      var before := rows;
      rows := Prune(rows, later);
      if OwnerStages(rows, owner) >= limits.maxOwnerStages {
        rows := before;
        return Failed(CountLimit);
      }
      if OwnerBytes(rows, owner) >= limits.maxOwnerBytes {
        rows := before;
        return Failed(OwnerSizeLimit);
      }
      var row := Row(id, owner, false, later + retention, 0, 0, 0, None, map[]);
      rows := rows + [row];
      return Stage(row);
    }

    method Append(owner: string, id: nat, sequence: int, chunk: Text, now: int, later: int) returns (answer: Answer)
      requires Valid()
      modifies this
      ensures Valid()
      ensures Outcome(rows, answer) == Apply(old(rows), owner, Op.Append(id, sequence, chunk), Env(now, later, retention), limits)
    {
      ghost var e := Env(now, later, retention);
      ApplyConsistent(rows, owner, Op.Append(id, sequence, chunk), e, limits);
      PruneExpired(now);
      if |chunk| > CHUNK_MAX_CHARS { return Failed(ChunkLimit); }
      if HasUnpairedSurrogate(chunk) { return Failed(InvalidText); }
      if sequence < 0 { return Failed(SequenceInvalid); }
      var found := FindOwned(rows, id, owner);
      if found.None? { return Failed(NotFound); }
      var row := found.value;
      if row.sealed { return Failed(NotOpen); }
      if sequence != row.next { return Failed(SequenceConflict); }
      if row.bytes + TextBytes(chunk) > limits.maxStageBytes { return Failed(StageSizeLimit); }
      if OwnerBytes(rows, owner) + TextBytes(chunk) > limits.maxOwnerBytes { return Failed(OwnerSizeLimit); }
      row := row.(chunks := row.chunks[sequence := chunk], chars := row.chars + |chunk|, bytes := row.bytes + TextBytes(chunk),
                  next := row.next + 1, expiresAt := later + retention);
      rows := Update(rows, row);
      return Stage(row);
    }

    /** The chunks in order of their sequence numbers, one after the other. */
    method IterateChunks(row: Row) returns (text: Text)
      requires RowOk(row, limits)
      ensures text == ContentOf(row)
    {
      text := [];
      for k := 0 to row.next
        invariant text == Concatenated(row.chunks, k)
      {
        text := text + row.chunks[k];
      }
    }

    method Seal(owner: string, id: nat, expectedChars: Option<int>, expectedContent: Option<Text>, now: int, later: int)
      returns (answer: Answer)
      requires Valid()
      modifies this
      ensures Valid()
      ensures Outcome(rows, answer)
           == Apply(old(rows), owner, Op.Seal(id, expectedChars, expectedContent), Env(now, later, retention), limits)
    {
      ghost var e := Env(now, later, retention);
      ApplyConsistent(rows, owner, Op.Seal(id, expectedChars, expectedContent), e, limits);
      PruneConsistent(rows, now, limits);
      PruneExpired(now);
      FoundIn(rows, id, owner);
      var found := FindOwned(rows, id, owner);
      if found.None? { return Failed(NotFound); }
      var row := found.value;
      if row.sealed { return Failed(NotOpen); }
      var content := IterateChunks(row);
      if expectedChars.Some? && expectedChars.value != row.chars { return Failed(IntegrityMismatch); }
      if expectedContent.Some? && expectedContent.value != content { return Failed(IntegrityMismatch); }
      row := row.(sealed := true, digest := Some(content), expiresAt := later + retention);
      rows := Update(rows, row);
      return Stage(row);
    }

    method Status(owner: string, id: nat, now: int) returns (answer: Answer)
      requires Valid()
      modifies this
      ensures Valid() && Outcome(rows, answer) == Apply(old(rows), owner, Op.Status(id), Env(now, now, retention), limits)
    {
      ApplyConsistent(rows, owner, Op.Status(id), Env(now, now, retention), limits);
      PruneExpired(now);
      var found := FindOwned(rows, id, owner);
      return if found.None? then Failed(NotFound) else Stage(found.value);
    }

    method Release(owner: string, id: nat) returns (answer: Answer)
      requires Valid()
      modifies this
      ensures Valid() && Outcome(rows, answer) == Apply(old(rows), owner, Op.Release(id), Env(0, 0, retention), limits)
    {
      ApplyConsistent(rows, owner, Op.Release(id), Env(0, 0, retention), limits);
      var found := FindOwned(rows, id, owner);
      if found.None? { return Failed(NotFound); }
      rows := Delete(rows, id, owner);
      return Stage(found.value);
    }

    method OpenReadStream(owner: string, id: nat, now: int) returns (answer: Answer)
      requires Valid()
      modifies this
      ensures Valid() && Outcome(rows, answer) == Apply(old(rows), owner, Op.Read(id), Env(now, now, retention), limits)
    {
      PruneConsistent(rows, now, limits);
      PruneExpired(now);
      FoundIn(rows, id, owner);
      var found := FindOwned(rows, id, owner);
      if found.None? { return Failed(NotFound); }
      if !found.value.sealed { return Failed(NotSealed); }
      var content := IterateChunks(found.value);
      return Content(content);
    }
  }
}
