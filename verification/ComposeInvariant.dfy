/**
  What is known of files and journal whenever a composition may stop, and that every single effect keeps it.
 */
module ComposeInvariant {
  import opened Results
  import opened ComposeJournal

  ghost predicate SameDocsAndBackups(f0: Files, f1: Files) {
    forall p: Path :: p.Doc? || p.Backup? ==> Look(f0, p) == Look(f1, p)
  }

  ghost predicate SameBut(f0: Files, f1: Files, changed: Path) {
    forall p: Path :: p != changed && !IsTemporary(p) ==> Look(f0, p) == Look(f1, p)
  }

  predicate Active(journal: seq<Operation>) { journal != [] && Unfinished(journal[|journal| - 1]) }

  /** The rows of the unfinished operation, if there is one. */
  function ActiveRows(journal: seq<Operation>): seq<Progress> {
    if Active(journal) then journal[|journal| - 1].rows else []
  }

  ghost predicate NamesOk(files: Files, operations: nat, randomId: nat) {
    forall p :: p in files ==> (p.Temp? ==> p.op < operations) && (p.RollbackTemp? ==> p.id < randomId)
  }

  /** Holds whenever the process may stop: at most the last operation is unfinished, and its state is known. */
  ghost predicate Consistent(files: Files, journal: seq<Operation>, docs: map<string, bytes>, orphans: set<Path>) {
    && (forall i :: 0 <= i < |journal| - 1 ==> !Unfinished(journal[i]))
    && TemporariesOk(ActiveRows(journal), files, orphans)
    && if Active(journal) then
         var id := |journal| - 1;
         RowsOk(journal[id], id, files, docs) && OthersOk(journal[id].targets, files, docs)
       else OthersOk([], files, docs)
  }

  /** Only temporary files changed: what is known of documents and backups stays known. */
  lemma TemporariesDoNotMatter(op: Operation, id: nat, f0: Files, f1: Files, docs: map<string, bytes>)
    requires SameDocsAndBackups(f0, f1) && RowsOk(op, id, f0, docs) && OthersOk(op.targets, f0, docs)
    ensures RowsOk(op, id, f1, docs) && OthersOk(op.targets, f1, docs)
  {
    forall k | 0 <= k < |op.rows| ensures RowOk(op.targets[k], op.rows[k], id, k, f1, docs) {
      assert RowOk(op.targets[k], op.rows[k], id, k, f0, docs);
    }
  }

  datatype Outcome = WasCommitted | WasRolledBack | NotStarted | Interrupted | RecoveryIncomplete

  /** The call ended with nothing left unfinished. */
  predicate Settled(o: Outcome) { o in {WasCommitted, WasRolledBack, NotStarted} }

  function ResultAll(targets: seq<Target>, docs: map<string, bytes>): map<string, bytes> {
    if targets == [] then docs
    else ResultAll(targets[..|targets| - 1], docs)[targets[|targets| - 1].dest := targets[|targets| - 1].result]
  }

  /** What was inspected at compile time is still there. */
  ghost predicate PriorsHold(targets: seq<Target>, docs: map<string, bytes>) {
    forall k :: 0 <= k < |targets| ==> targets[k].prior == Find(docs, targets[k].dest)
  }

  /** Sources and destinations are as they were when the operation was compiled. */
  ghost predicate AsCompiled(targets: seq<Target>, sources: seq<Source>, docs: map<string, bytes>) {
    PriorsHold(targets, docs) && forall k :: 0 <= k < |sources| ==> Find(docs, sources[k].name) == Some(sources[k].content)
  }

  /** A step of the rollback failed; the operation is left for a person to look at and recovery passes it by. */
  predicate GaveUp(journal: seq<Operation>) { journal != [] && journal[|journal| - 1].status == RecoveryFailed }

  /**
    What a rollback that failed somewhere leaves, seen from the committed contents: every target whose row says so is
    back, each of the others holds its committed content, its expected content or its result, and nothing else changed.
   */
  ghost predicate Aftermath(targets: seq<Target>, rows: seq<Progress>, before: map<string, bytes>,
                            after: map<string, bytes>)
  {
    && |rows| == |targets|
    && (forall name :: !IsDest(targets, name) ==> Find(after, name) == Find(before, name))
    && forall k :: 0 <= k < |rows| ==>
         var t := targets[k];
         var was, left := Find(before, t.dest), Find(after, t.dest);
         left == Expect(t, was) || (rows[k].state != RowRolledBack && (left == was || (left == Some(t.result) && t.prior == was)))
  }

  /** What each outcome says about the committed contents, starting from `base`. */
  ghost predicate Ended(o: Outcome, targets: seq<Target>, sources: seq<Source>, base: map<string, bytes>, journal: seq<Operation>,
                        docs: map<string, bytes>)
  {
    && journal != []
    && match o
       case WasCommitted =>
         journal[|journal| - 1].status == Committed && docs == ResultAll(targets, base) && AsCompiled(targets, sources, base)
       case WasRolledBack => journal[|journal| - 1].status == RolledBack && docs == ExpectAll(targets, base)
       case NotStarted => false
       case Interrupted => Active(journal) && docs == base && journal[|journal| - 1].targets == targets
       case RecoveryIncomplete =>
         && journal[|journal| - 1].targets == targets
         && if Active(journal) then docs == base else GaveUp(journal) && Aftermath(targets, journal[|journal| - 1].rows, base, docs)
  }

  /** The committed contents once an unfinished operation, if any, has been rolled back. */
  function AfterRecovery(journal: seq<Operation>, docs: map<string, bytes>): map<string, bytes> {
    if Active(journal) then ExpectAll(journal[|journal| - 1].targets, docs) else docs
  }

  /**
    However the call ended, crashes included: once recovery has run, the documents are those before the call, or those with
    the operation undone, or, only if the call reported the commit, those with every result in place.
   */
  ghost predicate AllOrNothing(o: Outcome, targets: seq<Target>, sources: seq<Source>, base: map<string, bytes>, journal: seq<Operation>,
                               docs: map<string, bytes>)
  {
    var recovered := AfterRecovery(journal, docs);
    || recovered == base || recovered == ExpectAll(targets, base)
    || (o == WasCommitted && recovered == ResultAll(targets, base) && AsCompiled(targets, sources, base))
  }

  ghost predicate SameTargets(j0: seq<Operation>, j1: seq<Operation>) {
    |j0| == |j1| > 0 && j0[|j0| - 1].targets == j1[|j1| - 1].targets
  }

  ghost predicate Unstarted(targets: seq<Target>, files: Files, docs: map<string, bytes>) {
    forall k :: 0 <= k < |targets| ==> Look(files, Doc(targets[k].dest)) == Find(docs, targets[k].dest)
  }

  function Recorded(id: nat, k: nat): Progress { Progress(Some(Temp(id, k)), None, RowPrepared) }

  /** Targets before `k` have their temporary file, written and recorded; the others are untouched. */
  ghost predicate PreparedUpTo(k: nat, op: Operation, id: nat, files: Files) {
    && (forall j :: 0 <= j < |op.rows| && j < k ==>
          |op.targets| == |op.rows| && op.rows[j] == Recorded(id, j) && Look(files, Temp(id, j)) == Some(op.targets[j].result))
    && (forall j :: k <= j < |op.rows| ==> op.rows[j] == Progress(None, None, Pending) && Temp(id, j) !in files)
  }

  /** Every temporary file is written and recorded and no destination was touched. */
  ghost predicate Primed(op: Operation, id: nat, files: Files, docs: map<string, bytes>) {
    PreparedUpTo(|op.rows|, op, id, files) && Unstarted(op.targets, files, docs)
  }

  lemma NowPrimed(op: Operation, id: nat, f0: Files, files: Files, docs: map<string, bytes>)
    requires PreparedUpTo(|op.rows|, op, id, files) && Unstarted(op.targets, f0, docs) && SameDocsAndBackups(f0, files)
    ensures Primed(op, id, files, docs)
  {
  }

  lemma PrimedWhateverTheStatus(op: Operation, status: Status, id: nat, files: Files, docs: map<string, bytes>)
    requires Primed(op, id, files, docs)
    ensures Primed(op.(status := status), id, files, docs)
  {
    var op1 := op.(status := status);
    forall j | 0 <= j < |op1.rows|
      ensures |op1.targets| == |op1.rows| && op1.rows[j] == Recorded(id, j) && Look(files, Temp(id, j)) == Some(op1.targets[j].result)
    {
      assert op.rows[j] == Recorded(id, j);
    }
  }

  ghost predicate AsInspected(targets: seq<Target>, files: Files) {
    forall k :: 0 <= k < |targets| ==> Look(files, Doc(targets[k].dest)) == targets[k].prior
  }

  /** Target `k` is prepared, verified and untouched. */
  ghost predicate ReadyToCommit(k: nat, op: Operation, id: nat, files: Files, docs: map<string, bytes>) {
    && k < |op.rows| == |op.targets| && op.rows[k] == Recorded(id, k)
    && op.targets[k].prior == Find(docs, op.targets[k].dest) == Look(files, Doc(op.targets[k].dest))
    && Look(files, Temp(id, k)) == Some(op.targets[k].result)
  }

  /** Targets before `k` hold their result; the others are ready. */
  ghost predicate CommittedUpTo(k: nat, op: Operation, id: nat, files: Files, docs: map<string, bytes>) {
    && |op.rows| == |op.targets| && PriorsHold(op.targets, docs)
    && (forall j :: 0 <= j < |op.rows| && j < k ==>
          Look(files, Doc(op.targets[j].dest)) == Some(op.targets[j].result) && op.rows[j].temp == None)
    && (forall j :: k <= j < |op.rows| ==> ReadyToCommit(j, op, id, files, docs))
  }

  function WithStatus(journal: seq<Operation>, status: Status): seq<Operation>
    requires journal != []
  {
    journal[|journal| - 1 := journal[|journal| - 1].(status := status)]
  }

  ghost predicate SourcesInPlace(sources: seq<Source>, files: Files) {
    forall k :: 0 <= k < |sources| ==> Look(files, Doc(sources[k].name)) == Some(sources[k].content)
  }

  /** Before the commits, what is found on disk is what was committed. */
  lemma InspectedIsCommitted(op: Operation, sources: seq<Source>, id: nat, files: Files, docs: map<string, bytes>)
    requires Primed(op, id, files, docs) && OthersOk(op.targets, files, docs)
    ensures AsCompiled(op.targets, sources, docs) <==> AsInspected(op.targets, files) && SourcesInPlace(sources, files)
  {
    forall name ensures Look(files, Doc(name)) == Find(docs, name) {
      if IsDest(op.targets, name) { var k :| 0 <= k < |op.targets| && op.targets[k].dest == name; }
    }
  }

  lemma NowReady(journal: seq<Operation>, files: Files, docs: map<string, bytes>)
    requires journal != [] && Primed(journal[|journal| - 1], |journal| - 1, files, docs)
    requires |ActiveRows(journal)| == |journal[|journal| - 1].targets| && Active(journal)
    requires AsInspected(journal[|journal| - 1].targets, files)
    ensures CommittedUpTo(0, WithStatus(journal, Committing)[|journal| - 1], |journal| - 1, files, docs)
  {
    var id := |journal| - 1;
    var op := WithStatus(journal, Committing)[id];
    forall j | 0 <= j < |op.rows| ensures ReadyToCommit(j, op, id, files, docs) {
      assert op.rows[j] == journal[id].rows[j] == Recorded(id, j);
    }
  }

  function Fresh(targets: seq<Target>): Operation {
    Operation(Preparing, targets, seq(|targets|, _ => Progress(None, None, Pending)))
  }

  lemma StartUnprepared(files: Files, id: nat, randomId: nat, targets: seq<Target>)
    requires NamesOk(files, id, randomId)
    ensures PreparedUpTo(0, Fresh(targets), id, files)
  {
  }

  lemma {:induction false} ResultAllAt(targets: seq<Target>, docs: map<string, bytes>, name: string)
    requires DistinctDests(targets)
    ensures !IsDest(targets, name) ==> Find(ResultAll(targets, docs), name) == Find(docs, name)
    ensures forall k :: 0 <= k < |targets| && targets[k].dest == name ==>
      Find(ResultAll(targets, docs), name) == Some(targets[k].result)
  {
    if targets != [] {
      var front := targets[..|targets| - 1];
      ResultAllAt(front, docs, name);
      assert forall k :: 0 <= k < |front| ==> front[k] == targets[k];
      if IsDest(front, name) {
        var k :| 0 <= k < |front| && front[k].dest == name;
        assert targets[k].dest == name;
      }
    }
  }

  function WithBackup(files: Files, id: nat, k: nat, t: Target): Files {
    if t.prior.Some? then files[Backup(id, k) := t.prior.value] else files
  }

  function BackedUpRow(id: nat, k: nat, t: Target): Progress {
    Progress(Some(Temp(id, k)), if t.prior.Some? then Some(Backup(id, k)) else None, RowPrepared)
  }

  /** The rename: the destination takes the content of the temporary file, which is gone. */
  function Replaced(files: Files, id: nat, k: nat, t: Target): Files { files[Doc(t.dest) := t.result] - {Temp(id, k)} }

  function CommittedRow(r: Progress): Progress { Progress(None, r.backup, RowCommitted) }

  lemma OneMoreCommitted(op: Operation, id: nat, k: nat, files: Files, docs: map<string, bytes>)
    requires k < |op.rows| && DistinctDests(op.targets) && CommittedUpTo(k, op, id, files, docs)
    ensures var t := op.targets[k];
      CommittedUpTo(k + 1, op.(rows := op.rows[k := CommittedRow(BackedUpRow(id, k, t))]), id,
                    Replaced(WithBackup(files, id, k, t), id, k, t), docs)
  {
    var t := op.targets[k];
    var op1, f1 := op.(rows := op.rows[k := CommittedRow(BackedUpRow(id, k, t))]), Replaced(WithBackup(files, id, k, t), id, k, t);
    forall j | 0 <= j < |op.rows| && j < k + 1
      ensures Look(f1, Doc(op1.targets[j].dest)) == Some(op1.targets[j].result) && op1.rows[j].temp == None
    {
      if j != k { assert op.targets[j].dest != t.dest; }
    }
    forall j | k + 1 <= j < |op.rows| ensures ReadyToCommit(j, op1, id, f1, docs) {
      assert ReadyToCommit(j, op, id, files, docs);
      assert op.targets[j].dest != t.dest;
    }
  }

  lemma FinishCommit(files: Files, journal: seq<Operation>, docs: map<string, bytes>, orphans: set<Path>)
    requires Consistent(files, journal, docs, orphans) && Active(journal)
    requires CommittedUpTo(|ActiveRows(journal)|, journal[|journal| - 1], |journal| - 1, files, docs)
    ensures Consistent(files, WithStatus(journal, Committed), ResultAll(journal[|journal| - 1].targets, docs), orphans)
  {
    var op := journal[|journal| - 1];
    forall name ensures Look(files, Doc(name)) == Find(ResultAll(op.targets, docs), name) {
      ResultAllAt(op.targets, docs, name);
      if IsDest(op.targets, name) { var k :| 0 <= k < |op.targets| && op.targets[k].dest == name; }
    }
  }

  lemma StatusDoesNotMatter(files: Files, journal: seq<Operation>, docs: map<string, bytes>, orphans: set<Path>,
                            status: Status)
    requires Consistent(files, journal, docs, orphans) && Active(journal) && status in {Prepared, Committing}
    ensures Consistent(files, WithStatus(journal, status), docs, orphans)
  {
    var id := |journal| - 1;
    var op := journal[id];
    forall k | 0 <= k < |op.rows| ensures RowOk(op.targets[k], op.rows[k], id, k, files, docs) { }
  }

  lemma StartKeepsConsistent(files: Files, journal: seq<Operation>, docs: map<string, bytes>, orphans: set<Path>,
                             targets: seq<Target>)
    requires Consistent(files, journal, docs, orphans) && !Active(journal) && DistinctDests(targets)
    ensures Consistent(files, journal + [Fresh(targets)], docs, orphans)
    ensures Unstarted(targets, files, docs)
  {
    forall k | 0 <= k < |targets| ensures Look(files, Doc(targets[k].dest)) == Find(docs, targets[k].dest) {
      assert !IsDest([], targets[k].dest);
    }
    forall name ensures Look(files, Doc(name)) == Find(docs, name) { assert !IsDest([], name); }
  }

  /** Same operations with the same targets; only progress of the last one may differ. */
  ghost predicate SameRun(j0: seq<Operation>, j1: seq<Operation>) {
    && |j0| == |j1| > 0 && j0[..|j0| - 1] == j1[..|j1| - 1]
    && j0[|j0| - 1].targets == j1[|j1| - 1].targets && j0[|j0| - 1].status == j1[|j1| - 1].status
  }

  /** Journal update of one target of the last operation. */
  function RecordRow(journal: seq<Operation>, k: nat, row: Progress): seq<Operation>
    requires journal != [] && k < |journal[|journal| - 1].rows|
  {
    var op := journal[|journal| - 1];
    journal[|journal| - 1 := op.(rows := op.rows[k := row])]
  }

  lemma RecordTwice(journal: seq<Operation>, k: nat, first: Progress, second: Progress)
    requires journal != [] && k < |journal[|journal| - 1].rows|
    ensures RecordRow(RecordRow(journal, k, first), k, second) == RecordRow(journal, k, second)
    ensures SameRun(journal, RecordRow(journal, k, first)) && SameRun(journal, RecordRow(journal, k, second))
  {
    var op := journal[|journal| - 1];
    assert op.rows[k := first][k := second] == op.rows[k := second];
  }

  lemma NotYetRecorded(op: Operation, id: nat, k: nat, files: Files)
    requires PreparedUpTo(k, op, id, files)
    ensures !Records(op.rows, Temp(id, k))
    ensures k < |op.rows| ==> op.rows[k] == Progress(None, None, Pending) && Temp(id, k) !in files
  {
  }

  lemma OneMorePrepared(op: Operation, id: nat, k: nat, files: Files)
    requires PreparedUpTo(k, op, id, files) && k < |op.rows| == |op.targets|
    ensures PreparedUpTo(k + 1, op.(rows := op.rows[k := Recorded(id, k)]), id, files[Temp(id, k) := op.targets[k].result])
    ensures SameDocsAndBackups(files, files[Temp(id, k) := op.targets[k].result])
  {
  }

  lemma SameTemporaries(f0: Files, f1: Files, rows: seq<Progress>, orphans: set<Path>)
    requires TemporariesOk(rows, f0, orphans) && forall p :: IsTemporary(p) ==> Look(f0, p) == Look(f1, p)
    ensures TemporariesOk(rows, f1, orphans)
  {
    forall p | IsTemporary(p) ensures p in f0 <==> p in f1 { assert Look(f0, p) == Look(f1, p); }
  }

  lemma BackupKeepsConsistent(f0: Files, journal: seq<Operation>, docs: map<string, bytes>, orphans: set<Path>, k: nat,
                              content: bytes)
    requires Consistent(f0, journal, docs, orphans) && Active(journal) && k < |ActiveRows(journal)|
    requires ActiveRows(journal)[k].backup == None
    ensures Consistent(f0[Backup(|journal| - 1, k) := content], journal, docs, orphans)
  {
    var id := |journal| - 1;
    var op, f1 := journal[id], f0[Backup(id, k) := content];
    forall l | 0 <= l < |op.rows| ensures RowOk(op.targets[l], op.rows[l], id, l, f1, docs) {
      assert RowOk(op.targets[l], op.rows[l], id, l, f0, docs);
    }
    SameTemporaries(f0, f1, op.rows, orphans);
  }

  lemma RowUpdateTemporaries(files: Files, rows: seq<Progress>, orphans: set<Path>, k: nat, row: Progress)
    requires TemporariesOk(rows, files, orphans) && k < |rows|
    requires row.temp == rows[k].temp || (row.temp == None && (rows[k].temp.Some? ==> rows[k].temp.value !in files))
    ensures TemporariesOk(rows[k := row], files, orphans)
  {
    var after := rows[k := row];
    forall p | p in files && IsTemporary(p) && p !in orphans ensures Records(after, p) {
      var l :| 0 <= l < |rows| && rows[l].temp == Some(p);
      assert after[l].temp == Some(p);
    }
    forall p | p in orphans ensures !Records(after, p) {
      forall l | 0 <= l < |after| ensures after[l].temp != Some(p) {
        assert after[l].temp == None || after[l].temp == rows[l].temp;
      }
    }
  }

  /** A journal update that keeps the temporary file's record and is right about this row. */
  lemma RowUpdateKeepsConsistent(files: Files, journal: seq<Operation>, docs: map<string, bytes>, orphans: set<Path>,
                                 k: nat, row: Progress)
    requires Consistent(files, journal, docs, orphans) && Active(journal) && k < |ActiveRows(journal)|
    requires row.temp == ActiveRows(journal)[k].temp
          || (row.temp == None && (ActiveRows(journal)[k].temp.Some? ==> ActiveRows(journal)[k].temp.value !in files))
    requires RowOk(journal[|journal| - 1].targets[k], row, |journal| - 1, k, files, docs)
    ensures Consistent(files, RecordRow(journal, k, row), docs, orphans)
  {
    var id := |journal| - 1;
    var op0, op1 := journal[id], RecordRow(journal, k, row)[id];
    forall l | 0 <= l < |op1.rows| ensures RowOk(op1.targets[l], op1.rows[l], id, l, files, docs) {
      assert RowOk(op0.targets[l], op0.rows[l], id, l, files, docs);
    }
    RowUpdateTemporaries(files, op0.rows, orphans, k, row);
  }

  lemma RecordBackupKeepsConsistent(files: Files, journal: seq<Operation>, docs: map<string, bytes>, orphans: set<Path>,
                                    k: nat)
    requires Consistent(files, journal, docs, orphans) && Active(journal) && k < |ActiveRows(journal)|
    requires ActiveRows(journal)[k] == Recorded(|journal| - 1, k)
    requires var t := journal[|journal| - 1].targets[k];
      t.prior == Find(docs, t.dest) && (t.prior.Some? ==> Look(files, Backup(|journal| - 1, k)) == t.prior)
    ensures var id := |journal| - 1;
      Consistent(files, RecordRow(journal, k, BackedUpRow(id, k, journal[id].targets[k])), docs, orphans)
  {
    var id := |journal| - 1;
    assert RowOk(journal[id].targets[k], journal[id].rows[k], id, k, files, docs);
    RowUpdateKeepsConsistent(files, journal, docs, orphans, k, BackedUpRow(id, k, journal[id].targets[k]));
  }

  lemma ReplaceKeepsConsistent(f0: Files, journal: seq<Operation>, docs: map<string, bytes>, orphans: set<Path>, k: nat)
    requires Consistent(f0, journal, docs, orphans) && Active(journal) && k < |ActiveRows(journal)|
    requires var t := journal[|journal| - 1].targets[k];
      t.prior == Find(docs, t.dest) && ActiveRows(journal)[k] == BackedUpRow(|journal| - 1, k, t)
    ensures var id := |journal| - 1; Consistent(Replaced(f0, id, k, journal[id].targets[k]), journal, docs, orphans)
  {
    var id := |journal| - 1;
    var op := journal[id];
    var f1 := Replaced(f0, id, k, op.targets[k]);
    forall l | 0 <= l < |op.rows| ensures RowOk(op.targets[l], op.rows[l], id, l, f1, docs) {
      assert RowOk(op.targets[l], op.rows[l], id, l, f0, docs);
      if l != k { assert op.targets[l].dest != op.targets[k].dest; }
    }
    assert Records(op.rows, Temp(id, k));
  }

  lemma RecordCommitKeepsConsistent(files: Files, journal: seq<Operation>, docs: map<string, bytes>, orphans: set<Path>,
                                    k: nat)
    requires Consistent(files, journal, docs, orphans) && Active(journal) && k < |ActiveRows(journal)|
    requires var t := journal[|journal| - 1].targets[k];
      t.prior == Find(docs, t.dest) && ActiveRows(journal)[k] == BackedUpRow(|journal| - 1, k, t)
    requires Temp(|journal| - 1, k) !in files
    ensures Consistent(files, RecordRow(journal, k, CommittedRow(ActiveRows(journal)[k])), docs, orphans)
  {
    var id := |journal| - 1;
    assert RowOk(journal[id].targets[k], journal[id].rows[k], id, k, files, docs);
    RowUpdateKeepsConsistent(files, journal, docs, orphans, k, CommittedRow(ActiveRows(journal)[k]));
  }

  ghost function RecordedIn(rows: seq<Progress>, files: Files): set<Path> { set p | p in files && Records(rows, p) }

  lemma GiveUpKeepsConsistent(files: Files, journal: seq<Operation>, docs: map<string, bytes>, orphans: set<Path>)
    requires Consistent(files, journal, docs, orphans) && Active(journal)
    ensures Consistent(files, WithStatus(journal, RecoveryFailed), DocsOf(files),
                       orphans + RecordedIn(journal[|journal| - 1].rows, files))
  {
    var id := |journal| - 1;
    var op := journal[id];
    forall p | Records(op.rows, p) ensures IsTemporary(p) {
      var k :| 0 <= k < |op.rows| && op.rows[k].temp == Some(p);
      assert RowOk(op.targets[k], op.rows[k], id, k, files, docs);
    }
  }

  /** Targets `k` and later are back and hold no temporary file. */
  ghost predicate BackFrom(k: nat, op: Operation, files: Files, docs: map<string, bytes>)
    requires |op.rows| == |op.targets|
  {
    forall j :: k <= j < |op.rows| ==>
      op.rows[j].temp == None
      && Look(files, Doc(op.targets[j].dest)) == Expect(op.targets[j], Find(docs, op.targets[j].dest))
  }

  function RolledBackRow(r: Progress): Progress { Progress(None, r.backup, RowRolledBack) }

  lemma BackOneMore(k: nat, op0: Operation, op1: Operation, f0: Files, f1: Files, docs: map<string, bytes>)
    requires |op0.rows| == |op0.targets| && k < |op0.rows| && DistinctDests(op0.targets)
    requires op1 == op0.(rows := op0.rows[k := RolledBackRow(op0.rows[k])])
    requires BackFrom(k + 1, op0, f0, docs) && SameBut(f0, f1, Doc(op0.targets[k].dest))
    requires Look(f1, Doc(op0.targets[k].dest)) == Expect(op0.targets[k], Find(docs, op0.targets[k].dest))
    ensures BackFrom(k, op1, f1, docs)
  {
  }

  lemma FinishRollback(files: Files, journal: seq<Operation>, docs: map<string, bytes>, orphans: set<Path>)
    requires Consistent(files, journal, docs, orphans) && Active(journal)
    requires BackFrom(0, journal[|journal| - 1], files, docs)
    ensures Consistent(files, WithStatus(journal, RolledBack), ExpectAll(journal[|journal| - 1].targets, docs), orphans)
  {
    var op := journal[|journal| - 1];
    forall name ensures Look(files, Doc(name)) == Find(ExpectAll(op.targets, docs), name) {
      ExpectAllAt(op.targets, docs, name);
      if IsDest(op.targets, name) { var k :| 0 <= k < |op.targets| && op.targets[k].dest == name; }
    }
  }

  lemma RestoredKeepsConsistent(f0: Files, f1: Files, journal: seq<Operation>, docs: map<string, bytes>,
                                orphans: set<Path>, k: nat)
    requires Consistent(f0, journal, docs, orphans) && Active(journal) && k < |ActiveRows(journal)|
    requires var t := journal[|journal| - 1].targets[k];
      && Look(f1, Doc(t.dest)) == Expect(t, Find(docs, t.dest))
      && forall p :: p != Doc(t.dest) ==> Look(f0, p) == Look(f1, p)
    ensures Consistent(f1, journal, docs, orphans)
  {
    var id := |journal| - 1;
    var op := journal[id];
    forall l | 0 <= l < |op.rows| ensures RowOk(op.targets[l], op.rows[l], id, l, f1, docs) {
      assert RowOk(op.targets[l], op.rows[l], id, l, f0, docs);
      if l != k { assert op.targets[l].dest != op.targets[k].dest; }
    }
    SameTemporaries(f0, f1, op.rows, orphans);
  }

  lemma RollbackTempUnrecorded(files: Files, journal: seq<Operation>, docs: map<string, bytes>, orphans: set<Path>, n: nat)
    requires Consistent(files, journal, docs, orphans)
    ensures !Records(ActiveRows(journal), RollbackTemp(n))
  {
    if Active(journal) {
      var id := |journal| - 1;
      forall k | 0 <= k < |journal[id].rows| ensures journal[id].rows[k].temp != Some(RollbackTemp(n)) {
        assert RowOk(journal[id].targets[k], journal[id].rows[k], id, k, files, docs);
      }
    }
  }

  lemma TempRemovedKeepsConsistent(f0: Files, journal: seq<Operation>, docs: map<string, bytes>, orphans: set<Path>,
                                   k: nat)
    requires Consistent(f0, journal, docs, orphans) && Active(journal) && k < |ActiveRows(journal)|
    requires ActiveRows(journal)[k].temp.Some?
    ensures Consistent(f0 - {ActiveRows(journal)[k].temp.value}, journal, docs, orphans)
    ensures SameDocsAndBackups(f0, f0 - {ActiveRows(journal)[k].temp.value})
  {
    var id := |journal| - 1;
    assert RowOk(journal[id].targets[k], journal[id].rows[k], id, k, f0, docs);
    assert Records(ActiveRows(journal), ActiveRows(journal)[k].temp.value);
    TemporariesDoNotMatter(journal[id], id, f0, f0 - {ActiveRows(journal)[k].temp.value}, docs);
  }

  lemma RolledBackKeepsConsistent(files: Files, journal: seq<Operation>, docs: map<string, bytes>, orphans: set<Path>,
                                  k: nat)
    requires Consistent(files, journal, docs, orphans) && Active(journal) && k < |ActiveRows(journal)|
    requires ActiveRows(journal)[k].temp.Some? ==> ActiveRows(journal)[k].temp.value !in files
    requires var t := journal[|journal| - 1].targets[k]; Look(files, Doc(t.dest)) == Expect(t, Find(docs, t.dest))
    ensures Consistent(files, RecordRow(journal, k, RolledBackRow(ActiveRows(journal)[k])), docs, orphans)
  {
    var id := |journal| - 1;
    assert RowOk(journal[id].targets[k], journal[id].rows[k], id, k, files, docs);
    RowUpdateKeepsConsistent(files, journal, docs, orphans, k, RolledBackRow(ActiveRows(journal)[k]));
  }

  lemma OrphanKeepsConsistent(f0: Files, temp: Path, content: bytes, journal: seq<Operation>, docs: map<string, bytes>,
                              orphans: set<Path>)
    requires Consistent(f0, journal, docs, orphans) && IsTemporary(temp) && temp !in f0
    requires !Records(ActiveRows(journal), temp)
    ensures Consistent(f0[temp := content], journal, docs, orphans + {temp})
  {
    if Active(journal) {
      TemporariesDoNotMatter(journal[|journal| - 1], |journal| - 1, f0, f0[temp := content], docs);
    }
  }

  lemma PreparedTemporaries(f0: Files, content: bytes, rows: seq<Progress>, orphans: set<Path>, id: nat, k: nat)
    requires TemporariesOk(rows, f0, orphans) && k < |rows| && rows[k].temp == None && Temp(id, k) !in f0
    ensures TemporariesOk(rows[k := Recorded(id, k)], f0[Temp(id, k) := content], orphans)
  {
    var temp := Temp(id, k);
    var f1, after := f0[temp := content], rows[k := Recorded(id, k)];
    forall p | p in f1 && IsTemporary(p) && p !in orphans ensures Records(after, p) {
      if p == temp {
        assert after[k].temp == Some(p);
      } else {
        var l :| 0 <= l < |rows| && rows[l].temp == Some(p);
        assert after[l].temp == Some(p);
      }
    }
    forall p | p in orphans ensures !Records(after, p) {
      forall l | 0 <= l < |after| && l != k ensures after[l].temp != Some(p) { assert rows[l].temp == after[l].temp; }
    }
  }

  lemma PreparedKeepsConsistent(f0: Files, content: bytes, journal: seq<Operation>, docs: map<string, bytes>,
                                orphans: set<Path>, k: nat)
    requires Consistent(f0, journal, docs, orphans) && Active(journal)
    requires k < |journal[|journal| - 1].rows| && journal[|journal| - 1].rows[k] == Progress(None, None, Pending)
    requires Temp(|journal| - 1, k) !in f0
    ensures var id := |journal| - 1;
      Consistent(f0[Temp(id, k) := content], RecordRow(journal, k, Recorded(id, k)), docs, orphans)
  {
    hide TemporariesOk;
    var id := |journal| - 1;
    TemporariesDoNotMatter(journal[id], id, f0, f0[Temp(id, k) := content], docs);
    PreparedTemporaries(f0, content, journal[id].rows, orphans, id, k);
  }
}
