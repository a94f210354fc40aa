/**
  The journal of the file composer and what rolling one operation back means, as values. Paths keep documents,
  temporaries and backups apart; hashes are compared by content.
 */
module ComposeJournal {
  import opened Results
  import opened Utf8

  type bytes = seq<byte>

  datatype Path =
    | Doc(name: string)
    | Temp(op: nat, ordinal: nat)      // .mcp-compose-<operation>-<ordinal>
    | RollbackTemp(id: nat)            // .mcp-compose-rollback-<random id>
    | Backup(op: nat, ordinal: nat)

  type Files = map<Path, bytes>

  function Look(files: Files, p: Path): Option<bytes> { if p in files then Some(files[p]) else None }

  datatype RowState = Pending | RowPrepared | RowCommitted | RowRolledBack

  /** One target of an operation; `prior` was inspected when the operation was compiled. */
  datatype Target = Target(dest: string, prior: Option<bytes>, result: bytes)

  /** A source as inspected when the operation was compiled. */
  datatype Source = Source(name: string, content: bytes)

  /** What the journal records while the target is processed. */
  datatype Progress = Progress(temp: Option<Path>, backup: Option<Path>, state: RowState)

  datatype Status = Preparing | Prepared | Committing | Committed | RolledBack | RecoveryFailed

  datatype Operation = Operation(status: Status, targets: seq<Target>, rows: seq<Progress>)

  /** Statuses that `recover` picks up. */
  predicate Unfinished(op: Operation) { op.status !in {Committed, RolledBack, RecoveryFailed} }

  function Find(docs: map<string, bytes>, name: string): Option<bytes> { if name in docs then Some(docs[name]) else None }

  // ---------- The rollback decision ----------

  /** Whether rollback treats the target as replaced: recorded so, or holding the result when it could have been. */
  predicate SeenCommitted(t: Target, r: Progress, current: Option<bytes>) {
    r.state == RowCommitted || (current == Some(t.result) && (t.prior.Some? ==> r.backup.Some?))
  }

  datatype Decision = Keep | Delete | Restore | Conflict | BackupMissing

  function RestoreDecision(t: Target, r: Progress, current: Option<bytes>): Decision {
    if t.prior.None? then
      if current.Some? && current.value != t.result then Conflict else Delete
    else if current == t.prior then Keep
    else if current.Some? && current.value != t.result then Conflict
    else if r.backup.None? then BackupMissing
    else Restore
  }

  function Decide(t: Target, r: Progress, current: Option<bytes>): Decision {
    if SeenCommitted(t, r, current) then RestoreDecision(t, r, current) else Keep
  }

  // ---------- What rollback leaves, seen from the committed contents ----------

  /**
    `was` is the destination's content as left by committed operations. A target that was compiled as absent but in
    fact holds exactly the bytes to be written is taken for this operation's own output and deleted.
   */
  predicate StaleTwin(t: Target, was: Option<bytes>) { t.prior.None? && was == Some(t.result) }

  function Expect(t: Target, was: Option<bytes>): Option<bytes> { if StaleTwin(t, was) then None else was }

  function ExpectAll(targets: seq<Target>, docs: map<string, bytes>): map<string, bytes> {
    if targets == [] then docs
    else
      var rest := ExpectAll(targets[..|targets| - 1], docs);
      var t := targets[|targets| - 1];
      if StaleTwin(t, Find(docs, t.dest)) then rest - {t.dest} else rest
  }

  ghost predicate DistinctDests(targets: seq<Target>) {
    forall i, j :: 0 <= i < j < |targets| ==> targets[i].dest != targets[j].dest
  }

  predicate IsDest(targets: seq<Target>, name: string) { exists k :: 0 <= k < |targets| && targets[k].dest == name }

  lemma {:induction false} ExpectAllAt(targets: seq<Target>, docs: map<string, bytes>, name: string)
    requires DistinctDests(targets)
    ensures !IsDest(targets, name) ==> Find(ExpectAll(targets, docs), name) == Find(docs, name)
    ensures forall k :: 0 <= k < |targets| && targets[k].dest == name ==>
      Find(ExpectAll(targets, docs), name) == Expect(targets[k], Find(docs, name))
  {
    if targets != [] {
      var front := targets[..|targets| - 1];
      ExpectAllAt(front, docs, name);
      assert forall k :: 0 <= k < |front| ==> front[k] == targets[k];
      if IsDest(front, name) {
        var k :| 0 <= k < |front| && front[k].dest == name;
        assert targets[k].dest == name;
      }
    }
  }

  /** Rolling back changes nothing that was committed exactly when no target is a stale twin. */
  lemma {:induction false} RollbackHarmlessIff(targets: seq<Target>, docs: map<string, bytes>)
    requires DistinctDests(targets)
    ensures ExpectAll(targets, docs) == docs
        <==> forall k :: 0 <= k < |targets| ==> !StaleTwin(targets[k], Find(docs, targets[k].dest))
  {
    forall name ensures
      && (!IsDest(targets, name) ==> Find(ExpectAll(targets, docs), name) == Find(docs, name))
      && (forall k :: 0 <= k < |targets| && targets[k].dest == name ==>
            Find(ExpectAll(targets, docs), name) == Expect(targets[k], Find(docs, name)))
    {
      ExpectAllAt(targets, docs, name);
    }
    if forall k :: 0 <= k < |targets| ==> !StaleTwin(targets[k], Find(docs, targets[k].dest)) {
      forall name ensures Find(ExpectAll(targets, docs), name) == Find(docs, name) {
        if IsDest(targets, name) { var k :| 0 <= k < |targets| && targets[k].dest == name; }
      }
      SameFind(ExpectAll(targets, docs), docs);
    }
  }

  lemma SameFind(a: map<string, bytes>, b: map<string, bytes>)
    requires forall name :: Find(a, name) == Find(b, name)
    ensures a == b
  {
    assert forall name :: name in a <==> name in b by {
      forall name ensures name in a <==> name in b { assert Find(a, name) == Find(b, name); }
    }
    forall name | name in a ensures a[name] == b[name] { assert Find(a, name) == Find(b, name); }
  }

  // ---------- The state of one unfinished operation ----------

  /** What is known of target `k` of operation `id` at every point at which the process may stop. */
  ghost predicate RowOk(t: Target, r: Progress, id: nat, k: nat, files: Files, docs: map<string, bytes>) {
    var current, was := Look(files, Doc(t.dest)), Find(docs, t.dest);
    && (|| current == was
        || current == Expect(t, was)
        || (current == Some(t.result) && t.prior == was && (was.Some? ==> r.backup.Some?)))
    && (r.backup.Some? ==> r.backup.value == Backup(id, k) && t.prior == was
                           && (was.Some? ==> Look(files, Backup(id, k)) == was))
    && (r.state == RowCommitted ==> t.prior == was && (was.Some? ==> r.backup.Some?))
    && (r.temp.Some? ==> r.temp.value == Temp(id, k))
    && (r.state == RowRolledBack ==> current == Expect(t, was))
  }

  /** The decision made in such a state is never a refusal, and it leads to the expected content. */
  lemma DecisionLeadsHome(t: Target, r: Progress, id: nat, k: nat, files: Files, docs: map<string, bytes>)
    requires RowOk(t, r, id, k, files, docs)
    ensures var current, was := Look(files, Doc(t.dest)), Find(docs, t.dest);
      match Decide(t, r, current)
      case Keep => current == Expect(t, was)
      case Delete => Expect(t, was) == None
      case Restore => r.backup == Some(Backup(id, k)) && Look(files, Backup(id, k)) == Expect(t, was) && was.Some?
      case Conflict => false
      case BackupMissing => false
  {
  }

  ghost predicate RowsOk(op: Operation, id: nat, files: Files, docs: map<string, bytes>) {
    && |op.rows| == |op.targets| && DistinctDests(op.targets)
    && forall k :: 0 <= k < |op.rows| ==> RowOk(op.targets[k], op.rows[k], id, k, files, docs)
  }

  /** Documents that are not targets are as committed operations left them. */
  ghost predicate OthersOk(targets: seq<Target>, files: Files, docs: map<string, bytes>) {
    forall name :: !IsDest(targets, name) ==> Look(files, Doc(name)) == Find(docs, name)
  }

  predicate IsTemporary(p: Path) { p.Temp? || p.RollbackTemp? }

  ghost predicate Records(rows: seq<Progress>, p: Path) {
    exists k :: 0 <= k < |rows| && rows[k].temp == Some(p)
  }

  /** Every temporary file on disk is recorded in the journal or known to be orphaned. */
  ghost predicate TemporariesOk(rows: seq<Progress>, files: Files, orphans: set<Path>) {
    && orphans <= files.Keys
    && (forall p :: p in orphans ==> IsTemporary(p))
    && (forall p :: p in files && IsTemporary(p) && p !in orphans ==> Records(rows, p))
    && (forall p :: p in orphans ==> !Records(rows, p))
  }

  /** The documents on disk, for the case in which nothing else is known about them. */
  ghost function DocsOf(files: Files): (docs: map<string, bytes>)
    ensures forall name :: Find(docs, name) == Look(files, Doc(name))
  {
    var names := set p | p in files && p.Doc? :: p.name;
    assert forall name :: name in names <==> Doc(name) in files;
    map name | name in names :: files[Doc(name)]
  }
}
