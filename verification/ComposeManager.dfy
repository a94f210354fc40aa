/**
  Executing and recovering compositions. Every durable effect is one step of the script of faults, and each method says
  for which scripts it gets through.
 */
module ComposeManager {
  import opened Results
  import opened ComposeJournal
  import opened ComposeInvariant
  import opened FaultScript

  // ---------- How many steps there are ----------

  /** Looking at the destination; for a replaced one also deleting it, or copying the backup and renaming the copy. */
  function RestoreSteps(t: Target, r: Progress, current: Option<bytes>): nat {
    match Decide(t, r, current) case Delete => 2 case Restore => 3 case _ => 1
  }

  /** Restoring, removing the temporary file if there is one, recording. */
  function TurnSteps(t: Target, r: Progress, current: Option<bytes>): nat {
    RestoreSteps(t, r, current) + (if r.temp.Some? then 1 else 0) + 1
  }

  /** The turns of the last target down to target `k`. */
  function TurnsSteps(k: nat, op: Operation, files: Files): nat
    decreases |op.rows| - k
  {
    if k < |op.rows| && k < |op.targets| then
      TurnsSteps(k + 1, op, files) + TurnSteps(op.targets[k], op.rows[k], Look(files, Doc(op.targets[k].dest)))
    else 0
  }

  function RollbackSteps(op: Operation, files: Files): nat { TurnsSteps(0, op, files) + 1 }

  function RecoverySteps(journal: seq<Operation>, files: Files): nat {
    if Active(journal) then RollbackSteps(journal[|journal| - 1], files) else 0
  }

  /** Creating, writing and recording each temporary file. */
  function PrepareSteps(n: nat): nat { 3 * n }

  /** Hook, backup, its record, rename, its record, hook. */
  function CommitTargetSteps(t: Target): nat { if t.prior.Some? then 6 else 5 }

  function CommitSteps(targets: seq<Target>): nat {
    if targets == [] then 0 else CommitSteps(targets[..|targets| - 1]) + CommitTargetSteps(targets[|targets| - 1])
  }

  /** The temporary files, a status, the check, a status, the commits, the final status. */
  function RunSteps(targets: seq<Target>): nat { PrepareSteps(|targets|) + 1 + 2 + (CommitSteps(targets) + 1) }

  // ---------- Which scripts leave a temporary file behind ----------

  /** The file is there after the first step; writing or recording it is struck and it is not removed again. */
  predicate LeavesTemp(script: Script) {
    && |script| > 1 && script[0] == Fine
    && (StruckForGood(script[1..]) || (script[1] == Fine && StruckForGood(script[2..])))
  }

  lemma LeftBehind(script: Script, rest: Script, s: Signal)
    requires Ran(2, true, script, rest, s)
    ensures s == Done ==> (LeavesTemp(script) <==> StruckForGood(rest))
    ensures s != Done ==> (LeavesTemp(script) <==> |script| > 1 && script[0] == Fine && StruckForGood(script[1..]))
  {
    TwoSteps(script);
  }

  /** The copy of the backup is written, the rename is struck and the copy is not removed again. */
  predicate LeavesCopy(t: Target, r: Progress, current: Option<bytes>, script: Script) {
    Decide(t, r, current) == Restore && FineFor(1, script) && StruckForGood(Drop(1, script))
  }

  predicate LeavesRollbackTemp(t: Target, r: Progress, current: Option<bytes>, script: Script) {
    FineFor(1, script) && LeavesCopy(t, r, current, Drop(1, script))
  }

  /** What preparing `n` targets leaves behind: at most the temporary file at which it stops. */
  ghost function LeftTemps(id: nat, n: nat, script: Script): set<Path> {
    set k: nat | k < n && LeavesAt(k, script) :: Temp(id, k)
  }

  predicate LeavesAt(k: nat, script: Script) { FineFor(3 * k, script) && LeavesTemp(Drop(3 * k, script)) }

  lemma LeavesAtStop(id: nat, n: nat, k: nat, script: Script)
    requires k <= n && FineFor(3 * k, script) && (k < n ==> !FineFor(3 * k + 3, script))
    ensures LeftTemps(id, n, script) == if k < n && LeavesTemp(Drop(3 * k, script)) then {Temp(id, k)} else {}
  {
    forall j: nat | j < n && LeavesAt(j, script) ensures j == k {
      if j < k {
        DropSum(3 * j + 3, 3 * k - 3 * j - 3, script);
        DropSum(3 * j, 3, script);
        LeavesIsNotFine(Drop(3 * j, script));
      } else if j > k {
        DropSum(3 * k + 3, 3 * j - 3 * k - 3, script);
      }
    }
  }

  lemma StoppedAt(id: nat, n: nat, k: nat, first: Script, script: Script, rest: Script, s: Signal)
    requires k < n && Ran(PrepareSteps(k), true, first, script, Done) && Ran(3, true, script, rest, s) && s != Done
    ensures LeftTemps(id, n, first) == if LeavesTemp(script) then {Temp(id, k)} else {}
  {
    DropSum(3 * k, 3, first);
    LeavesAtStop(id, n, k, first);
  }

  lemma NothingLeft(id: nat, n: nat, first: Script, script: Script)
    requires Ran(PrepareSteps(n), true, first, script, Done)
    ensures LeftTemps(id, n, first) == {}
  {
    LeavesAtStop(id, n, n, first);
  }

  lemma LeavesIsNotFine(script: Script)
    requires LeavesTemp(script)
    ensures !FineFor(3, script)
  {
    DropSum(2, 1, script);
    TwoSteps(script);
    OneStep(script[2..]);
  }

  /** The turns begun that leave the copy of a backup behind. */
  ghost function LeavingTurns(op: Operation, f0: Files, turns: map<nat, Script>): set<nat> {
    set k | k in turns && LeavesInTurn(op, f0, k, turns[k])
  }

  predicate LeavesInTurn(op: Operation, f0: Files, k: nat, script: Script) {
    && k < |op.rows| && k < |op.targets|
    && LeavesRollbackTemp(op.targets[k], op.rows[k], Look(f0, Doc(op.targets[k].dest)), script)
  }

  ghost function Copies(orphans: set<Path>): set<Path> { set p | p in orphans && p.RollbackTemp? }

  /** One copy is left per leaving turn, and nothing else is. */
  ghost predicate CopiesLeft(before: set<Path>, after: set<Path>, op: Operation, f0: Files, turns: map<nat, Script>) {
    && before <= after && after - Copies(after) == before - Copies(before)
    && |Copies(after)| == |Copies(before)| + |LeavingTurns(op, f0, turns)|
  }

  lemma NoCopyYet(orphans: set<Path>, op: Operation, f0: Files)
    ensures CopiesLeft(orphans, orphans, op, f0, map[])
  {
    assert LeavingTurns(op, f0, map[]) == {};
  }

  lemma OneMoreCopy(before: set<Path>, o1: set<Path>, o2: set<Path>, op: Operation, f0: Files, turns: map<nat, Script>,
                    k: nat, script: Script, copy: Path)
    requires CopiesLeft(before, o1, op, f0, turns) && k < |op.rows| && k < |op.targets| && k !in turns
    requires copy.RollbackTemp? && copy !in o1
    requires o2 == o1 + if LeavesInTurn(op, f0, k, script) then {copy} else {}
    ensures CopiesLeft(before, o2, op, f0, turns[k := script])
  {
    LeavingOneMore(op, f0, turns, k, script);
    CopiesOneMore(o1, copy);
    hide LeavesInTurn, LeavingTurns, Copies;
    if LeavesInTurn(op, f0, k, script) { assert o2 == o1 + {copy}; } else { assert o2 == o1; }
  }

  lemma CopiesOneMore(orphans: set<Path>, copy: Path)
    requires copy.RollbackTemp? && copy !in orphans
    ensures var more := orphans + {copy};
      Copies(more) == Copies(orphans) + {copy} && |Copies(more)| == |Copies(orphans)| + 1
      && more - Copies(more) == orphans - Copies(orphans)
  {
    assert Copies(orphans + {copy}) == Copies(orphans) + {copy};
  }

  lemma LeavingOneMore(op: Operation, f0: Files, turns: map<nat, Script>, k: nat, script: Script)
    requires k < |op.rows| && k < |op.targets| && k !in turns
    ensures |LeavingTurns(op, f0, turns[k := script])|
         == |LeavingTurns(op, f0, turns)| + if LeavesInTurn(op, f0, k, script) then 1 else 0
  {
    hide LeavesInTurn;
    var some, more := LeavingTurns(op, f0, turns), LeavingTurns(op, f0, turns[k := script]);
    if LeavesInTurn(op, f0, k, script) { assert more == some + {k}; } else { assert more == some; }
  }

  lemma CopiesAreMore(before: set<Path>, after: set<Path>, op: Operation, f0: Files, turns: map<nat, Script>)
    requires CopiesLeft(before, after, op, f0, turns)
    ensures before <= after
  {
  }

  /** The next copy has a name of its own. */
  lemma CopyIsNew(files: Files, journal: seq<Operation>, docs: map<string, bytes>, orphans: set<Path>, randomId: nat)
    requires Consistent(files, journal, docs, orphans) && NamesOk(files, |journal|, randomId)
    ensures RollbackTemp(randomId) !in orphans
  {
  }

  // ---------- What rolling back does, target by target ----------

  /** What the turn that starts with this script does to a destination and its row. */
  ghost predicate Turned(t: Target, r0: Progress, r1: Progress, c0: Option<bytes>, c1: Option<bytes>, was: Option<bytes>,
                         script: Script)
  {
    && c1 == (if FineFor(RestoreSteps(t, r0, c0), script) then Expect(t, was) else c0)
    && r1 == (if FineFor(TurnSteps(t, r0, c0), script) then RolledBackRow(r0) else r0)
  }

  /** The turns of the targets from `k` on, each with its own script. */
  ghost predicate TurnsTaken(k: nat, op0: Operation, f0: Files, rows: seq<Progress>, f1: Files,
                             docs: map<string, bytes>, turns: map<nat, Script>)
  {
    && |op0.targets| == |op0.rows| == |rows|
    && forall j :: k <= j < |op0.rows| ==>
         var dest := Doc(op0.targets[j].dest);
         j in turns && Turned(op0.targets[j], op0.rows[j], rows[j], Look(f0, dest), Look(f1, dest),
                              Find(docs, op0.targets[j].dest), turns[j])
  }

  /** The script with which turn `k` starts, once the later ones are over; a failed turn stops no other. */
  ghost predicate StartsWith(k: nat, op: Operation, f0: Files, first: Script, turns: map<nat, Script>, script: Script) {
    if k + 1 < |op.rows| && k + 1 < |op.targets| then
      && k + 1 in turns
      && Follows(TurnSteps(op.targets[k + 1], op.rows[k + 1], Look(f0, Doc(op.targets[k + 1].dest))), turns[k + 1], script)
    else script == first
  }

  /** The turns come one after the other, the last target first. */
  ghost predicate InTurn(k: nat, op: Operation, f0: Files, first: Script, turns: map<nat, Script>) {
    forall j :: k <= j < |op.rows| ==> j in turns && StartsWith(j, op, f0, first, turns, turns[j])
  }

  /** The turns begun are those of the last targets down to target `k`. */
  ghost predicate Begun(k: nat, op: Operation, turns: map<nat, Script>) { forall j :: j in turns <==> k <= j < |op.rows| }

  /** Only a crash leaves turns that have not begun; those that have came one after the other. */
  ghost predicate SomeInTurn(op: Operation, f0: Files, first: Script, turns: map<nat, Script>, all: bool) {
    exists k: nat :: Begun(k, op, turns) && InTurn(k, op, f0, first, turns) && (all ==> k == 0)
  }

  /** The turns of targets before `k` are still to come. */
  ghost predicate Untouched(k: nat, op0: Operation, f0: Files, rows: seq<Progress>, f1: Files) {
    && |op0.rows| == |rows| == |op0.targets|
    && forall j :: 0 <= j < k && j < |op0.rows| ==>
         rows[j] == op0.rows[j] && Look(f1, Doc(op0.targets[j].dest)) == Look(f0, Doc(op0.targets[j].dest))
  }

  /** The loop is about to take turn `k - 1`, with the script `now`. */
  ghost predicate TurnsOver(k: nat, op0: Operation, f0: Files, rows: seq<Progress>, f1: Files, docs: map<string, bytes>,
                            first: Script, turns: map<nat, Script>, now: Script)
  {
    && TurnsTaken(k, op0, f0, rows, f1, docs, turns) && InTurn(k, op0, f0, first, turns)
    && Untouched(k, op0, f0, rows, f1) && (k > 0 ==> StartsWith(k - 1, op0, f0, first, turns, now))
  }

  lemma NoTurnsYet(op: Operation, files: Files, docs: map<string, bytes>, first: Script)
    requires |op.rows| == |op.targets|
    ensures TurnsOver(|op.rows|, op, files, op.rows, files, docs, first, map[], first)
    ensures TurnsSteps(|op.rows|, op, files) == 0 && Begun(|op.rows|, op, map[])
  {
  }

  lemma AreInTurn(k: nat, op0: Operation, f0: Files, rows: seq<Progress>, f1: Files, docs: map<string, bytes>,
                  first: Script, turns: map<nat, Script>, now: Script, s: Signal)
    requires TurnsOver(k, op0, f0, rows, f1, docs, first, turns, now) && Begun(k, op0, turns)
    ensures SomeInTurn(op0, f0, first, turns, s != Crashed && k == 0)
  {
    hide InTurn, Begun;
  }

  lemma OneMoreBegun(k: nat, op: Operation, turns: map<nat, Script>, script: Script)
    requires k < |op.rows| && Begun(k + 1, op, turns)
    ensures k !in turns && Begun(k, op, turns[k := script])
  {
  }

  lemma StillToCome(k: nat, op0: Operation, f0: Files, rows: seq<Progress>, f1: Files, docs: map<string, bytes>,
                    first: Script, turns: map<nat, Script>, now: Script)
    requires k < |op0.rows| && TurnsOver(k + 1, op0, f0, rows, f1, docs, first, turns, now)
    ensures rows[k] == op0.rows[k] && Look(f1, Doc(op0.targets[k].dest)) == Look(f0, Doc(op0.targets[k].dest))
  {
  }

  /** The next turn's script takes its place behind the others. */
  lemma NextInTurn(k: nat, op: Operation, f0: Files, first: Script, turns: map<nat, Script>, script: Script, now: Script)
    requires k < |op.rows| == |op.targets| && InTurn(k + 1, op, f0, first, turns)
    requires StartsWith(k, op, f0, first, turns, script)
    requires Follows(TurnSteps(op.targets[k], op.rows[k], Look(f0, Doc(op.targets[k].dest))), script, now)
    ensures InTurn(k, op, f0, first, turns[k := script])
    ensures k > 0 ==> StartsWith(k - 1, op, f0, first, turns[k := script], now)
  {
    hide Follows, TurnSteps;
  }

  lemma OneMoreTurn(k: nat, op0: Operation, f0: Files, rows1: seq<Progress>, f1: Files, rows2: seq<Progress>, f2: Files,
                    docs: map<string, bytes>, first: Script, turns: map<nat, Script>, script: Script, now: Script)
    requires k < |op0.rows| && TurnsOver(k + 1, op0, f0, rows1, f1, docs, first, turns, script) && DistinctDests(op0.targets)
    requires |rows2| == |rows1| && rows2 == rows1[k := rows2[k]] && SameBut(f1, f2, Doc(op0.targets[k].dest))
    requires var t := op0.targets[k];
      && Turned(t, rows1[k], rows2[k], Look(f1, Doc(t.dest)), Look(f2, Doc(t.dest)), Find(docs, t.dest), script)
      && Follows(TurnSteps(t, rows1[k], Look(f1, Doc(t.dest))), script, now)
    ensures TurnsOver(k, op0, f0, rows2, f2, docs, first, turns[k := script], now)
  {
    hide FineFor, Drop, Strikes, Turned, Follows, StartsWith, InTurn;
    var t := op0.targets[k];
    forall j | 0 <= j < |op0.rows| && j != k
      ensures rows2[j] == rows1[j] && Look(f2, Doc(op0.targets[j].dest)) == Look(f1, Doc(op0.targets[j].dest))
    {
      assert op0.targets[j].dest != t.dest;
    }
    StillToCome(k, op0, f0, rows1, f1, docs, first, turns, script);
    NextInTurn(k, op0, f0, first, turns, script, now);
  }

  /** One turn of the loop, well or badly ended. */
  lemma TurnTaken(k: nat, op0: Operation, f0: Files, rows1: seq<Progress>, f1: Files, rows2: seq<Progress>, f2: Files,
                  docs: map<string, bytes>, first: Script, turns: map<nat, Script>, script: Script, now: Script, s: Signal,
                  one: Signal)
    requires k < |op0.rows| && TurnsOver(k + 1, op0, f0, rows1, f1, docs, first, turns, script) && DistinctDests(op0.targets)
    requires |rows2| == |rows1| && rows2 == rows1[k := rows2[k]] && SameBut(f1, f2, Doc(op0.targets[k].dest))
    requires var t := op0.targets[k];
      && Turned(t, rows1[k], rows2[k], Look(f1, Doc(t.dest)), Look(f2, Doc(t.dest)), Find(docs, t.dest), script)
      && Ran(TurnSteps(t, rows1[k], Look(f1, Doc(t.dest))), true, script, now, one)
    requires Ran(TurnsSteps(k + 1, op0, f0), true, first, script, s) && s != Crashed
    ensures one != Crashed ==> Ran(TurnsSteps(k, op0, f0), true, first, now, Worse(s, one))
    ensures one == Crashed ==> Ran(TurnsSteps(0, op0, f0), true, first, now, Crashed)
    ensures TurnsOver(k, op0, f0, rows2, f2, docs, first, turns[k := script], now)
  {
    hide FineFor, Drop, Strikes, Turned, Follows, Ran, SameBut;
    var steps := TurnSteps(op0.targets[k], rows1[k], Look(f1, Doc(op0.targets[k].dest)));
    StillToCome(k, op0, f0, rows1, f1, docs, first, turns, script);
    RanBoth(TurnsSteps(k + 1, op0, f0), steps, first, script, now, s, one);
    RanFollows(steps, script, now, one);
    OneMoreTurn(k, op0, f0, rows1, f1, rows2, f2, docs, first, turns, script, now);
    if one == Crashed {
      TurnsShrink(k, op0, f0);
      RanOut(TurnsSteps(k, op0, f0), true, TurnsSteps(0, op0, f0) - TurnsSteps(k, op0, f0), true, first, now, one);
    }
  }

  /** A rollback of a single target whose first look fails. */
  lemma FirstStrike(script: Script, op: Operation, files: Files)
    requires script == [Fails] && |op.rows| == |op.targets| == 1
    ensures forall n: nat :: n > 0 ==> !FineFor(n, script)
    ensures TurnsSteps(0, op, files) > 0 && Strikes(script) == 1 && Crashes !in script
  {
  }

  lemma {:induction false} TurnsShrink(k: nat, op: Operation, files: Files)
    ensures TurnsSteps(k, op, files) <= TurnsSteps(0, op, files)
  {
    if k > 0 { TurnsShrink(k - 1, op, files); }
  }

  lemma TurnNeedsRestore(t: Target, r: Progress, current: Option<bytes>, script: Script)
    ensures FineFor(TurnSteps(t, r, current), script) ==> FineFor(RestoreSteps(t, r, current), script)
  {
    DropSum(RestoreSteps(t, r, current), TurnSteps(t, r, current) - RestoreSteps(t, r, current), script);
  }

  /** After the turns every destination is back, or as it was before, which is one of three contents. */
  lemma LeftAsAftermath(op0: Operation, op1: Operation, id: nat, f0: Files, f1: Files, docs: map<string, bytes>,
                        turns: map<nat, Script>)
    requires RowsOk(op0, id, f0, docs) && op1.targets == op0.targets && OthersOk(op1.targets, f1, docs)
    requires TurnsTaken(0, op0, f0, op1.rows, f1, docs, turns)
    ensures Aftermath(op1.targets, op1.rows, docs, DocsOf(f1))
  {
    forall k | 0 <= k < |op1.rows|
      ensures var t := op1.targets[k];
        var was, left := Find(docs, t.dest), Find(DocsOf(f1), t.dest);
        left == Expect(t, was) || (op1.rows[k].state != RowRolledBack && (left == was || (left == Some(t.result) && t.prior == was)))
    {
      assert RowOk(op0.targets[k], op0.rows[k], id, k, f0, docs);
      var t := op0.targets[k];
      assert Turned(t, op0.rows[k], op1.rows[k], Look(f0, Doc(t.dest)), Look(f1, Doc(t.dest)), Find(docs, t.dest), turns[k]);
      TurnNeedsRestore(t, op0.rows[k], Look(f0, Doc(t.dest)), turns[k]);
    }
  }

  lemma AllTurnsOver(op0: Operation, op1: Operation, id: nat, f0: Files, f1: Files, docs: map<string, bytes>,
                     first: Script, turns: map<nat, Script>, now: Script)
    requires RowsOk(op0, id, f0, docs) && op1.targets == op0.targets && OthersOk(op1.targets, f1, docs)
    requires TurnsOver(0, op0, f0, op1.rows, f1, docs, first, turns, now)
    ensures Aftermath(op1.targets, op1.rows, docs, DocsOf(f1))
    ensures TurnsTaken(0, op0, f0, op1.rows, f1, docs, turns) && InTurn(0, op0, f0, first, turns)
  {
    LeftAsAftermath(op0, op1, id, f0, f1, docs, turns);
  }

  lemma {:induction false} CommitStepsGrow(targets: seq<Target>, k: nat)
    requires k <= |targets|
    ensures CommitSteps(targets[..k]) <= CommitSteps(targets)
    decreases |targets| - k
  {
    if k < |targets| {
      CommitStepsGrow(targets, k + 1);
      assert targets[..k + 1][..k] == targets[..k];
    } else {
      assert targets[..k] == targets;
    }
  }

  lemma KnownParts(files: Files, journal: seq<Operation>, docs: map<string, bytes>, orphans: set<Path>)
    requires Consistent(files, journal, docs, orphans) && Active(journal)
    ensures var op := journal[|journal| - 1];
      |op.rows| == |op.targets| && RowsOk(op, |journal| - 1, files, docs) && OthersOk(op.targets, files, docs)
  {
  }

  /** No row asks for a refusal. */
  lemma KnownDecision(files: Files, journal: seq<Operation>, docs: map<string, bytes>, orphans: set<Path>, k: nat)
    requires Consistent(files, journal, docs, orphans) && Active(journal) && k < |journal[|journal| - 1].rows|
    ensures var op := journal[|journal| - 1];
      && |op.rows| == |op.targets|
      && var t, r, current := op.targets[k], op.rows[k], Look(files, Doc(op.targets[k].dest));
         && Decide(t, r, current) in {Keep, Delete, Restore}
         && match Decide(t, r, current)
            case Keep => current == Expect(t, Find(docs, t.dest))
            case Delete => Expect(t, Find(docs, t.dest)) == None
            case Restore =>
              var copy := Backup(|journal| - 1, k);
              copy in files && r.backup == Some(copy) && Expect(t, Find(docs, t.dest)) == Some(files[copy])
  {
    var id := |journal| - 1;
    var op := journal[id];
    assert RowOk(op.targets[k], op.rows[k], id, k, files, docs);
    DecisionLeadsHome(op.targets[k], op.rows[k], id, k, files, docs);
  }

  lemma TemporaryAside(files: Files, temp: Path, content: bytes)
    requires IsTemporary(temp)
    ensures SameDocsAndBackups(files, files[temp := content]) && SameDocsAndBackups(files, files)
  {
  }

  lemma StillSame(f0: Files, f1: Files, f2: Files)
    ensures SameDocsAndBackups(f0, f1) && SameDocsAndBackups(f1, f2) ==> SameDocsAndBackups(f0, f2)
    ensures SameDocsAndBackups(f0, f0)
  {
  }

  lemma PreparesRan(id: nat, k: nat, n: nat, s0: Script, s1: Script, s2: Script, s: Signal)
    requires k < n && Ran(PrepareSteps(k), true, s0, s1, Done) && Ran(3, true, s1, s2, s)
    ensures Ran(PrepareSteps(k + 1), true, s0, s2, s)
    ensures s != Done ==> Ran(PrepareSteps(n), true, s0, s2, s)
    ensures s != Done ==> LeftTemps(id, n, s0) == if LeavesTemp(s1) then {Temp(id, k)} else {}
  {
    hide FineFor, Drop, Strikes, Ran, LeftTemps, LeavesTemp;
    RanOn(3 * k, true, 3, true, s0, s1, s2, s);
    if s != Done {
      RanOut(3 * k + 3, true, 3 * (n - k - 1), true, s0, s2, s);
      StoppedAt(id, n, k, s0, s1, s2, s);
    }
  }

  lemma CommitsRan(targets: seq<Target>, k: nat, s0: Script, s1: Script, s2: Script, s: Signal)
    requires k < |targets| && Ran(CommitSteps(targets[..k]), true, s0, s1, Done)
    requires Ran(CommitTargetSteps(targets[k]), true, s1, s2, s)
    ensures Ran(CommitSteps(targets[..k + 1]), true, s0, s2, s)
    ensures s != Done ==> Ran(CommitSteps(targets), true, s0, s2, s)
  {
    hide FineFor, Drop, Strikes, Ran;
    assert targets[..k + 1][..k] == targets[..k];
    RanOn(CommitSteps(targets[..k]), true, CommitTargetSteps(targets[k]), true, s0, s1, s2, s);
    CommitStepsGrow(targets, k + 1);
    if s != Done {
      RanOut(CommitSteps(targets[..k + 1]), true, CommitSteps(targets) - CommitSteps(targets[..k + 1]), true, s0, s2, s);
    }
  }

  /** With nothing unfinished, disk and ghosts agree: documents, and the temporaries nobody recorded. */
  lemma AllSettled(files: Files, journal: seq<Operation>, docs: map<string, bytes>, orphans: set<Path>)
    requires Consistent(files, journal, docs, orphans) && !Active(journal)
    ensures DocsOf(files) == docs && forall p :: p in files && IsTemporary(p) <==> p in orphans
  {
    SameFind(DocsOf(files), docs);
  }

  lemma ReplacedNames(files: Files, operations: nat, randomId: nat, id: nat, k: nat, t: Target)
    requires NamesOk(files, operations, randomId) && Look(files, Temp(id, k)) == Some(t.result)
    ensures NamesOk(Replaced(files, id, k, t), operations, randomId)
    ensures files[Doc(t.dest) := files[Temp(id, k)]] - {Temp(id, k)} == Replaced(files, id, k, t)
  {
  }

  // ---------- How an execution ends ----------

  /** No crash, and at most one error, none if a source or a destination has changed since it was inspected. */
  ghost predicate FewStrikes(targets: seq<Target>, sources: seq<Source>, base: map<string, bytes>, script: Script) {
    Crashes !in script && Strikes(script) <= if AsCompiled(targets, sources, base) then 1 else 0
  }

  /** Which scripts lead to a commit and which to a complete rollback. */
  ghost predicate EndsFor(o: Outcome, targets: seq<Target>, sources: seq<Source>, base: map<string, bytes>, before: Script, after: Script) {
    && (o == WasCommitted <==> AsCompiled(targets, sources, base) && FineFor(RunSteps(targets), before))
    && (FewStrikes(targets, sources, base, before) && o != WasCommitted ==> o == WasRolledBack)
    && Strikes(after) <= Strikes(before) && (o == Interrupted ==> Strikes(after) < Strikes(before))
  }

  /** The call ended before its operation was in the journal. */
  ghost predicate EndedEarly(o: Outcome, journal0: seq<Operation>, docs0: map<string, bytes>, journal: seq<Operation>,
                             docs: map<string, bytes>)
  {
    && |journal| == |journal0| && o in {NotStarted, Interrupted, RecoveryIncomplete} && (o == NotStarted ==> !Active(journal))
    && if o == RecoveryIncomplete && !Active(journal) then
         GaveUp(journal) && Aftermath(journal[|journal| - 1].targets, journal[|journal| - 1].rows, docs0, docs)
       else AfterRecovery(journal, docs) == AfterRecovery(journal0, docs0)
  }

  lemma EarlyIsAllOrNothing(o: Outcome, targets: seq<Target>, sources: seq<Source>, journal0: seq<Operation>,
                            docs0: map<string, bytes>, journal: seq<Operation>, docs: map<string, bytes>)
    requires EndedEarly(o, journal0, docs0, journal, docs)
    ensures AllOrNothing(o, targets, sources, AfterRecovery(journal0, docs0), journal, docs)
         || (o == RecoveryIncomplete && GaveUp(journal))
  {
  }

  lemma LateIsAllOrNothing(o: Outcome, targets: seq<Target>, sources: seq<Source>, base: map<string, bytes>,
                           journal: seq<Operation>, docs: map<string, bytes>)
    requires Ended(o, targets, sources, base, journal, docs)
    ensures AllOrNothing(o, targets, sources, base, journal, docs) || (o == RecoveryIncomplete && GaveUp(journal))
  {
  }

  class Manager {
    var files: Files
    var journal: seq<Operation>
    var faults: Script
    var randomId: nat
    /** Contents as committed operations left them. */
    ghost var docs: map<string, bytes>
    /** Temporary files created but not recorded when a fault struck. */
    ghost var orphans: set<Path>

    ghost predicate Valid()
      reads this
    {
      Consistent(files, journal, docs, orphans) && NamesOk(files, |journal|, randomId)
    }

    constructor (documents: map<string, bytes>, faults: Script)
      ensures Valid() && journal == [] && docs == documents && orphans == {} && this.faults == faults
    {
      files := map p: Path | p in (set name | name in documents :: Doc(name)) :: documents[p.name];
      journal, this.faults, randomId, docs, orphans := [], faults, 0, documents, {};
    }

    /** The environment's word on the next durable effect. */
    method Step() returns (s: Signal)
      modifies this`faults
      ensures s == (if old(faults) == [] then Done else Meaning(old(faults)[0]))
      ensures faults == if old(faults) == [] then [] else old(faults)[1..]
      ensures Ran(1, true, old(faults), faults, s)
    {
      if faults == [] { return Done; }
      assert faults == [faults[0]] + faults[1..];
      s := Meaning(faults[0]);
      faults := faults[1..];
    }

    ghost function Op(): Operation
      requires journal != []
      reads this
    {
      journal[|journal| - 1]
    }

    /** A fault struck while `temp` exists but is not recorded: the clean-up step, which may itself be struck. */
    method Abandon(temp: Path, fault: Signal, ghost f0: Files, ghost script: Script) returns (s: Signal)
      requires IsTemporary(temp) && temp !in f0 && temp in files && files - {temp} == f0
      requires Consistent(f0, journal, docs, orphans) && NamesOk(files, |journal|, randomId) && fault != Done
      requires !Records(ActiveRows(journal), temp)
      requires script != [] && fault == Meaning(script[0]) && faults == script[1..] && Ran(1, true, script, faults, fault)
      modifies this`files, this`faults, this`orphans
      ensures Valid() && orphans == old(orphans) + if StruckForGood(script) then {temp} else {}
      ensures files == if StruckForGood(script) then old(files) else f0
      ensures s != Done && Ran(1, true, script, faults, s)
    {
      s := fault;
      if fault == Failed {
        s := Step();
        if s == Done {
          files := files - {temp};
          return Failed;
        }
      }
      OrphanKeepsConsistent(f0, temp, files[temp], journal, docs, orphans);
      assert files == f0[temp := files[temp]];
      orphans := orphans + {temp};
    }

    /** Creates the temporary file and writes it; on a fault it is removed again or known to be orphaned. */
    method WriteTemporary(temp: Path, content: bytes) returns (s: Signal)
      requires Valid() && temp.Temp? && temp.op < |journal| && temp !in files && !Records(ActiveRows(journal), temp)
      modifies this`files, this`faults, this`orphans
      ensures NamesOk(files, |journal|, randomId) && SameDocsAndBackups(old(files), files)
      ensures s == Done ==> files == old(files)[temp := content] && orphans == old(orphans)
      ensures s != Done ==> Valid()
      ensures s != Done ==>
        orphans == old(orphans) + if |old(faults)| > 1 && old(faults)[0] == Fine && StruckForGood(old(faults)[1..]) then {temp} else {}
      ensures s != Done && temp !in orphans ==> files == old(files)
      ensures Ran(2, true, old(faults), faults, s)
    {
      hide Drop, Strikes, Consistent;
      ghost var f0, script := files, faults;
      s := Step();
      if s != Done {
        RanOut(1, true, 1, true, script, faults, s);
        return;
      }
      files := files[temp := []];
      ghost var rest := faults;
      s := Step();
      if s == Done {
        files := files[temp := content];
      } else {
        assert files - {temp} == f0;
        s := Abandon(temp, s, f0, rest);
      }
      RanOn(1, true, 1, true, script, rest, faults, s);
    }

    /** Records the temporary file, or removes it again. */
    method RecordPrepared(id: nat, k: nat, ghost f0: Files) returns (s: Signal)
      requires Consistent(f0, journal, docs, orphans) && NamesOk(files, |journal|, randomId) && Active(journal)
      requires id == |journal| - 1 && k < |Op().rows| && Op().rows[k] == Progress(None, None, Pending)
      requires Temp(id, k) !in f0 && Temp(id, k) in files && files == f0[Temp(id, k) := files[Temp(id, k)]]
      requires !Records(Op().rows, Temp(id, k)) && NamesOk(f0, |journal|, randomId)
      modifies this`files, this`faults, this`orphans, this`journal
      ensures Valid() && orphans == old(orphans) + if StruckForGood(old(faults)) then {Temp(id, k)} else {}
      ensures s == Done ==> journal == RecordRow(old(journal), k, Recorded(id, k)) && files == old(files)
      ensures s == Done ==> orphans == old(orphans)
      ensures s != Done ==> journal == old(journal) && files == if StruckForGood(old(faults)) then old(files) else f0
      ensures Ran(1, true, old(faults), faults, s)
    {
      hide FineFor, Drop, Strikes, Consistent;
      ghost var script := faults;
      s := Step();
      if s == Done {
        PreparedKeepsConsistent(f0, files[Temp(id, k)], journal, docs, orphans, k);
        journal := RecordRow(journal, k, Recorded(id, k));
      } else {
        assert files - {Temp(id, k)} == f0;
        s := Abandon(Temp(id, k), s, f0, script);
      }
    }

    /** Writes and records the temporary file of target `k`; it outlives a fault exactly for the scripts `LeavesTemp`. */
    method PrepareTarget(id: nat, k: nat) returns (s: Signal)
      requires Valid() && Active(journal) && id == |journal| - 1 && k < |Op().rows|
      requires Op().rows[k] == Progress(None, None, Pending) && Temp(id, k) !in files
      requires !Records(Op().rows, Temp(id, k))
      modifies this
      ensures Valid() && docs == old(docs) && SameDocsAndBackups(old(files), files)
      ensures orphans == old(orphans) + if LeavesTemp(old(faults)) then {Temp(id, k)} else {}
      ensures s == Done ==> journal == RecordRow(old(journal), k, Recorded(id, k)) && orphans == old(orphans)
      ensures s == Done ==> files == old(files)[Temp(id, k) := old(Op()).targets[k].result]
      ensures s != Done ==> journal == old(journal)
      ensures Ran(3, true, old(faults), faults, s)
    {
      assert k < |Op().targets|;
      TemporaryAside(files, Temp(id, k), Op().targets[k].result);
      hide Ran, FineFor, Drop, Strikes, Consistent, LeavesTemp, StruckForGood, SameDocsAndBackups, NamesOk;
      ghost var f0, script := files, faults;
      s := WriteTemporary(Temp(id, k), journal[id].targets[k].result);
      LeftBehind(script, faults, s);
      if s != Done {
        RanOut(2, true, 1, true, script, faults, s);
        return;
      }
      ghost var rest := faults;
      s := RecordPrepared(id, k, f0);
      RanOn(2, true, 1, true, script, rest, faults, s);
    }

    /** Writes `content` beside the destination and renames it into place. */
    method ReplaceByRename(dest: string, content: bytes) returns (s: Signal)
      requires Valid()
      modifies this`files, this`faults, this`orphans, this`randomId
      ensures NamesOk(files, |journal|, randomId)
      ensures orphans == old(orphans) + if StruckForGood(old(faults)) then {RollbackTemp(old(randomId))} else {}
      ensures s == Done ==> files == old(files)[Doc(dest) := content] && orphans == old(orphans)
      ensures s != Done ==> Consistent(files, journal, docs, orphans)
      ensures s != Done ==> files == old(files) || files == old(files)[RollbackTemp(old(randomId)) := content]
      ensures Ran(1, true, old(faults), faults, s)
    {
      ghost var f0, script := files, faults;
      var temp := RollbackTemp(randomId);
      RollbackTempUnrecorded(files, journal, docs, orphans, randomId);
      randomId := randomId + 1;
      files := files[temp := content];
      s := Step();
      if s != Done {
        assert files - {temp} == f0;
        s := Abandon(temp, s, f0, script);
        return;
      }
      files := files[Doc(dest) := content] - {temp};
      assert files == f0[Doc(dest) := content];
      return Done;
    }

    /** Deletes the destination, or writes the backup back. */
    method Undo(id: nat, k: nat) returns (s: Signal)
      requires Valid() && Active(journal) && id == |journal| - 1 && k < |Op().rows|
      requires RestoreSteps(Op().targets[k], Op().rows[k], Look(files, Doc(Op().targets[k].dest))) > 1
      modifies this`files, this`faults, this`orphans, this`randomId
      ensures Valid() && SameBut(old(files), files, Doc(Op().targets[k].dest))
      ensures var t, r, c0 := Op().targets[k], Op().rows[k], Look(old(files), Doc(Op().targets[k].dest));
        && Look(files, Doc(t.dest)) == (if s == Done then Expect(t, Find(docs, t.dest)) else c0)
        && Ran(RestoreSteps(t, r, c0) - 1, true, old(faults), faults, s)
        && orphans == old(orphans) + if LeavesCopy(t, r, c0, old(faults)) then {RollbackTemp(old(randomId))} else {}
      ensures s == Done ==> orphans == old(orphans)
    {
      hide FineFor, Drop, Strikes, Consistent, Decide, StruckForGood;
      KnownDecision(files, journal, docs, orphans, k);
      var t, r := journal[id].targets[k], journal[id].rows[k];
      ghost var f0, script := files, faults;
      var decision := Decide(t, r, Look(files, Doc(t.dest)));
      ghost var more: nat := if decision == Restore then 1 else 0;
      s := Step();
      if s != Done {
        RanOut(1, true, more, true, script, faults, s);
        return;
      }
      if decision == Delete {
        files := files - {Doc(t.dest)};
      } else {
        ghost var last := faults;
        s := ReplaceByRename(t.dest, files[Backup(id, k)]);
        RanOn(1, true, 1, true, script, last, faults, s);
      }
      if s == Done { RestoredKeepsConsistent(f0, files, journal, docs, orphans, k); }
    }

    /** Brings the destination of target `k` back, or leaves it alone; the journal is not touched yet. */
    method RestoreTarget(id: nat, k: nat) returns (s: Signal)
      requires Valid() && Active(journal) && id == |journal| - 1 && k < |Op().rows|
      modifies this`files, this`faults, this`orphans, this`randomId
      ensures Valid() && SameBut(old(files), files, Doc(Op().targets[k].dest))
      ensures var t, r, c0 := Op().targets[k], Op().rows[k], Look(old(files), Doc(Op().targets[k].dest));
        && Look(files, Doc(t.dest)) == (if s == Done then Expect(t, Find(docs, t.dest)) else c0)
        && Ran(RestoreSteps(t, r, c0), true, old(faults), faults, s)
        && orphans == old(orphans)
             + if LeavesRollbackTemp(t, r, c0, old(faults)) then {RollbackTemp(old(randomId))} else {}
      ensures s == Done ==> orphans == old(orphans)
    {
      hide Drop, Strikes, Consistent;
      KnownDecision(files, journal, docs, orphans, k);
      var t, r := journal[id].targets[k], journal[id].rows[k];
      ghost var script, more := faults, RestoreSteps(t, r, Look(files, Doc(t.dest))) - 1;
      var decision := Decide(t, r, Look(files, Doc(t.dest)));
      s := Step();
      if s != Done {
        RanOut(1, true, more, true, script, faults, s);
        return;
      }
      if decision == Keep { return Done; }
      if decision == Conflict || decision == BackupMissing { return Failed; }
      ghost var rest := faults;
      s := Undo(id, k);
      RanOn(1, true, more, true, script, rest, faults, s);
    }

    /** Removes the temporary file of a target that is back and records the target as rolled back. */
    method RecordRolledBack(id: nat, k: nat) returns (s: Signal)
      requires Valid() && Active(journal) && id == |journal| - 1 && k < |Op().rows| && k < |Op().targets|
      requires Look(files, Doc(Op().targets[k].dest)) == Expect(Op().targets[k], Find(docs, Op().targets[k].dest))
      modifies this`files, this`faults, this`journal
      ensures Valid() && Active(journal) && SameDocsAndBackups(old(files), files)
      ensures s == Done ==> journal == RecordRow(old(journal), k, RolledBackRow(old(Op()).rows[k]))
      ensures s != Done ==> journal == old(journal)
      ensures Ran(if old(Op()).rows[k].temp.Some? then 2 else 1, true, old(faults), faults, s)
    {
      hide FineFor, Drop, Strikes, Consistent;
      var r := journal[id].rows[k];
      if r.temp.Some? {
        s := Step();
        ghost var rest := faults;
        if s != Done {
          RanOut(1, true, 1, true, old(faults), rest, s);
          return;
        }
        TempRemovedKeepsConsistent(files, journal, docs, orphans, k);
        files := files - {r.temp.value};
        s := Step();
        RanOn(1, true, 1, true, old(faults), rest, faults, s);
      } else {
        s := Step();
      }
      if s != Done { return; }
      RolledBackKeepsConsistent(files, journal, docs, orphans, k);
      journal := RecordRow(journal, k, RolledBackRow(r));
    }

    /** One turn of the rollback loop: restore, remove the temporary file, record. */
    method RollbackTarget(id: nat, k: nat) returns (s: Signal)
      requires Valid() && Active(journal) && id == |journal| - 1 && k < |Op().rows|
      modifies this`files, this`faults, this`orphans, this`randomId, this`journal
      ensures Valid() && Active(journal) && SameBut(old(files), files, Doc(old(Op()).targets[k].dest))
      ensures s == Done ==> journal == RecordRow(old(journal), k, RolledBackRow(old(Op()).rows[k]))
      ensures s != Done ==> journal == old(journal)
      ensures var t, r, c0 := old(Op()).targets[k], old(Op()).rows[k], Look(old(files), Doc(old(Op()).targets[k].dest));
        && Turned(t, r, Op().rows[k], c0, Look(files, Doc(t.dest)), Find(docs, t.dest), old(faults))
        && (s == Done ==> Look(files, Doc(t.dest)) == Expect(t, Find(docs, t.dest)) && orphans == old(orphans))
        && Ran(TurnSteps(t, r, c0), true, old(faults), faults, s)
        && orphans == old(orphans)
             + if LeavesRollbackTemp(t, r, c0, old(faults)) then {RollbackTemp(old(randomId))} else {}
      ensures s == Done ==> orphans == old(orphans)
    {
      hide FineFor, Drop, Strikes, LeavesRollbackTemp, Consistent;
      KnownDecision(files, journal, docs, orphans, k);
      var t, r := journal[id].targets[k], journal[id].rows[k];
      ghost var script, n := faults, RestoreSteps(t, r, Look(files, Doc(t.dest)));
      ghost var more: nat := if r.temp.Some? then 2 else 1;
      s := RestoreTarget(id, k);
      if s != Done {
        RanOut(n, true, more, true, script, faults, s);
        return;
      }
      ghost var rest := faults;
      s := RecordRolledBack(id, k);
      RanOn(n, true, more, true, script, rest, faults, s);
    }

    /** The turn of target `k` in the loop, which has got `s` so far. */
    method TakeTurn(id: nat, k: nat, s: Signal, ghost op0: Operation, ghost f0: Files, ghost first: Script,
                    ghost turns: map<nat, Script>)
        returns (after: Signal)
      requires Valid() && Active(journal) && id == |journal| - 1 && k < |Op().rows| == |op0.rows| && s != Crashed
      requires Op().targets == op0.targets && (s == Done ==> BackFrom(k + 1, Op(), files, docs))
      requires Ran(TurnsSteps(k + 1, op0, f0), true, first, faults, s)
      requires TurnsOver(k + 1, op0, f0, Op().rows, files, docs, first, turns, faults)
      modifies this`files, this`faults, this`orphans, this`randomId, this`journal
      ensures Valid() && Active(journal) && SameRun(old(journal), journal) && |Op().rows| == |op0.rows|
      ensures RollbackTemp(old(randomId)) !in old(orphans)
      ensures orphans == old(orphans) + if LeavesInTurn(op0, f0, k, old(faults)) then {RollbackTemp(old(randomId))} else {}
      ensures after == Done ==> s == Done && orphans == old(orphans) && BackFrom(k, Op(), files, docs)
      ensures Ran(TurnsSteps(if after == Crashed then 0 else k, op0, f0), true, first, faults, after)
      ensures TurnsOver(k, op0, f0, Op().rows, files, docs, first, turns[k := old(faults)], faults)
    {
      hide Ran, Drop, Strikes, FineFor, Turned, TurnsOver, TurnSteps, TurnsSteps, LeavesRollbackTemp;
      ghost var op1, f1, script := Op(), files, faults;
      StillToCome(k, op0, f0, op1.rows, f1, docs, first, turns, script);
      CopyIsNew(files, journal, docs, orphans, randomId);
      var one := RollbackTarget(id, k);
      if one == Done && s == Done { BackOneMore(k, op1, Op(), f1, files, docs); }
      TurnTaken(k, op0, f0, op1.rows, f1, Op().rows, files, docs, first, turns, script, faults, s, one);
      after := Worse(s, one);
    }

    /** The rollback loop, last target first; a failing target does not stop the others. */
    method RollbackTargets(id: nat) returns (s: Signal, ghost turns: map<nat, Script>)
      requires Valid() && Active(journal) && id == |journal| - 1
      modifies this`files, this`faults, this`orphans, this`randomId, this`journal
      ensures Valid() && Active(journal) && SameRun(old(journal), journal)
      ensures s == Done ==> orphans == old(orphans) && BackFrom(0, Op(), files, docs)
      ensures Ran(TurnsSteps(0, old(Op()), old(files)), true, old(faults), faults, s)
      ensures s != Crashed ==> TurnsTaken(0, old(Op()), old(files), Op().rows, files, docs, turns)
      ensures SomeInTurn(old(Op()), old(files), old(faults), turns, s != Crashed)
      ensures CopiesLeft(old(orphans), orphans, old(Op()), old(files), turns)
      ensures s != Crashed ==> Aftermath(Op().targets, Op().rows, docs, DocsOf(files))
    {
      hide Ran, Drop, Strikes, FineFor, TurnsOver, TurnsSteps, LeavesInTurn, CopiesLeft, InTurn, Begun, SomeInTurn;
      ghost var op0, f0, first := Op(), files, faults;
      s, turns := Done, map[];
      NoSteps(faults);
      NoTurnsYet(op0, f0, docs, first);
      NoCopyYet(orphans, op0, f0);
      KnownParts(files, journal, docs, orphans);
      var k: nat := |journal[id].rows|;
      assert BackFrom(k, Op(), files, docs);
      hide Consistent, RowsOk, OthersOk, TurnsTaken, BackFrom, Aftermath, NamesOk;
      while k > 0
        invariant Valid() && Active(journal) && SameRun(old(journal), journal) && |Op().rows| == |op0.rows|
        invariant k <= |op0.rows| && s != Crashed && Begun(k, op0, turns)
        invariant CopiesLeft(old(orphans), orphans, op0, f0, turns)
        invariant s == Done ==> orphans == old(orphans) && BackFrom(k, Op(), files, docs)
        invariant Ran(TurnsSteps(k, op0, f0), true, first, faults, s)
        invariant TurnsOver(k, op0, f0, Op().rows, files, docs, first, turns, faults)
      {
        k := k - 1;
        ghost var script, o1, copy := faults, orphans, RollbackTemp(randomId);
        s := TakeTurn(id, k, s, op0, f0, first, turns);
        OneMoreBegun(k, op0, turns, script);
        OneMoreCopy(old(orphans), o1, orphans, op0, f0, turns, k, script, copy);
        turns := turns[k := script];
        AreInTurn(k, op0, f0, Op().rows, files, docs, first, turns, faults, s);
        if s == Crashed { return; }
      }
      KnownParts(files, journal, docs, orphans);
      AreInTurn(0, op0, f0, Op().rows, files, docs, first, turns, faults, s);
      AllTurnsOver(op0, Op(), id, f0, files, docs, first, turns, faults);
    }

    /**
      Rolls the unfinished operation back and records how that ended. It ends well exactly when the script lets every one of
      its steps work. When a step failed, every target whose own steps worked is back all the same.
     */
    method Rollback(id: nat) returns (s: Signal, ghost turns: map<nat, Script>)
      requires Valid() && Active(journal) && id == |journal| - 1
      modifies this
      ensures Valid() && |journal| == |old(journal)| && journal[..id] == old(journal)[..id]
      ensures Op().targets == old(Op()).targets && old(orphans) <= orphans
      ensures SomeInTurn(old(Op()), old(files), old(faults), turns, !Active(journal))
      ensures !GaveUp(journal) ==> CopiesLeft(old(orphans), orphans, old(Op()), old(files), turns)
      ensures GaveUp(journal) ==> exists left ::
        CopiesLeft(old(orphans), left, old(Op()), old(files), turns) && orphans == left + RecordedIn(Op().rows, files)
      ensures Ran(RollbackSteps(old(Op()), old(files)), true, old(faults), faults, s)
      ensures s == Done ==> !Active(journal) && Op().status == RolledBack && orphans == old(orphans)
      ensures s == Done ==> docs == ExpectAll(old(Op()).targets, old(docs))
      ensures Active(journal) ==> docs == old(docs) && s != Done
      ensures !Active(journal) && s != Done ==> s == Failed && GaveUp(journal) && Aftermath(Op().targets, Op().rows, old(docs), docs)
      ensures !FineFor(TurnsSteps(0, old(Op()), old(files)), old(faults)) && Strikes(old(faults)) <= 1 && Crashes !in old(faults)
        ==> GaveUp(journal)
      ensures !Active(journal) ==>
        TurnsTaken(0, old(Op()), old(files), Op().rows, files, old(docs), turns)
    {
      hide FineFor, Drop, Consistent, TurnsTaken, TurnsSteps, InTurn, Aftermath, CopiesLeft;
      ghost var n, script := TurnsSteps(0, Op(), files), faults;
      var undone;
      undone, turns := RollbackTargets(id);
      CopiesAreMore(old(orphans), orphans, old(Op()), old(files), turns);
      if undone == Crashed {
        RanOut(n, true, 1, true, script, faults, undone);
        return undone, turns;
      }
      ghost var rest := faults;
      if Strikes(rest) == 0 { NoStrikes(1, rest); }
      s := Step();
      RanBoth(n, 1, script, rest, faults, undone, s);
      if s != Done { return; }
      if undone == Failed {
        GiveUpKeepsConsistent(files, journal, docs, orphans);
        ghost var rows := journal[id].rows;
        journal := WithStatus(journal, RecoveryFailed);
        docs, orphans := DocsOf(files), orphans + RecordedIn(rows, files);
        return Failed, turns;
      }
      FinishRollback(files, journal, docs, orphans);
      docs := ExpectAll(journal[id].targets, docs);
      journal := WithStatus(journal, RolledBack);
    }

    /** Rolls back whatever is unfinished; called at start-up and before every execution. */
    method Recover() returns (s: Signal)
      requires Valid()
      modifies this
      ensures Valid() && |journal| == |old(journal)| && old(orphans) <= orphans
      ensures Ran(RecoverySteps(old(journal), old(files)), true, old(faults), faults, s)
      ensures s == Done ==> !Active(journal) && docs == AfterRecovery(old(journal), old(docs)) && orphans == old(orphans)
      ensures s == Done ==> DocsOf(files) == docs && forall p :: p in files && IsTemporary(p) <==> p in orphans
      ensures s == Done && Active(old(journal)) ==> Op().status == RolledBack
      ensures Active(journal) ==> Active(old(journal)) && docs == old(docs) && Op().targets == old(Op()).targets && s != Done
      ensures s != Done && !Active(journal) ==> s == Failed && GaveUp(journal) && Aftermath(Op().targets, Op().rows, old(docs), docs)
      ensures !Active(old(journal)) ==> s == Done && journal == old(journal) && files == old(files)
    {
      s := Done;
      if |journal| > 0 && Unfinished(journal[|journal| - 1]) {
        ghost var turns;
        s, turns := Rollback(|journal| - 1);
      }
      if s == Done { AllSettled(files, journal, docs, orphans); }
    }

    // ---------- Execution ----------

    /** Writes and records every temporary file; one that is not recorded is left behind for the scripts of `LeftTemps`. */
    method PrepareAll(id: nat) returns (s: Signal)
      requires Valid() && Active(journal) && id == |journal| - 1 && PreparedUpTo(0, Op(), id, files)
      modifies this
      ensures Valid() && Active(journal) && SameRun(old(journal), journal)
      ensures orphans == old(orphans) + LeftTemps(id, |Op().targets|, old(faults))
      ensures SameDocsAndBackups(old(files), files) && docs == old(docs)
      ensures s == Done ==> PreparedUpTo(|Op().rows|, Op(), id, files) && orphans == old(orphans)
      ensures Ran(PrepareSteps(|Op().targets|), true, old(faults), faults, s)
    {
      ghost var n := |Op().targets|;
      assert |Op().rows| == n;
      hide Ran, FineFor, Drop, Strikes, Consistent, PreparedUpTo, LeftTemps, LeavesTemp, NamesOk, SameDocsAndBackups, Recorded;
      NoSteps(faults);
      StillSame(files, files, files);
      for k := 0 to |journal[id].rows|
        invariant Valid() && Active(journal) && SameRun(old(journal), journal) && |Op().rows| == |old(Op()).rows| == n
        invariant SameDocsAndBackups(old(files), files) && orphans == old(orphans) && docs == old(docs)
        invariant PreparedUpTo(k, Op(), id, files) && Ran(PrepareSteps(k), true, old(faults), faults, Done)
      {
        NotYetRecorded(Op(), id, k, files);
        ghost var op0, f0, script := Op(), files, faults;
        s := PrepareTarget(id, k);
        StillSame(old(files), f0, files);
        PreparesRan(id, k, n, old(faults), script, faults, s);
        if s != Done { return; }
        OneMorePrepared(op0, id, k, f0);
      }
      NothingLeft(id, n, old(faults), faults);
      return Done;
    }

    /** Re-checks sources and destinations. */
    method VerifyAll(id: nat, sources: seq<Source>) returns (s: Signal)
      requires Valid() && Active(journal) && id == |journal| - 1
      modifies this`faults
      ensures Ran(1, AsInspected(Op().targets, files) && SourcesInPlace(sources, files), old(faults), faults, s)
    {
      s := Step();
      if s != Done { return; }
      for k := 0 to |sources|
        invariant forall j :: 0 <= j < k ==> Look(files, Doc(sources[j].name)) == Some(sources[j].content)
      {
        if Look(files, Doc(sources[k].name)) != Some(sources[k].content) { return Failed; }
      }
      for k := 0 to |journal[id].targets|
        invariant forall j :: 0 <= j < k ==> Look(files, Doc(Op().targets[j].dest)) == Op().targets[j].prior
      {
        var t := journal[id].targets[k];
        if Look(files, Doc(t.dest)) != t.prior { return Failed; }
      }
      return Done;
    }

    /** Copies the present content aside before the target is touched. */
    method CopyAside(id: nat, k: nat) returns (s: Signal)
      requires Valid() && Active(journal) && id == |journal| - 1 && ReadyToCommit(k, Op(), id, files, docs)
      modifies this`files, this`faults
      ensures Valid() && (s != Done ==> files == old(files))
      ensures s == Done ==> files == WithBackup(old(files), id, k, Op().targets[k])
      ensures Ran(if Op().targets[k].prior.Some? then 1 else 0, true, old(faults), faults, s)
    {
      NoSteps(faults);
      hide FineFor, Drop, Strikes;
      var t := journal[id].targets[k];
      s := Done;
      if Doc(t.dest) in files {
        s := Step();
        if s != Done { return; }
        BackupKeepsConsistent(files, journal, docs, orphans, k, files[Doc(t.dest)]);
        files := files[Backup(id, k) := files[Doc(t.dest)]];
      }
    }

    method RecordBackup(id: nat, k: nat) returns (s: Signal)
      requires Valid() && Active(journal) && id == |journal| - 1 && ReadyToCommit(k, Op(), id, files, docs)
      requires Op().targets[k].prior.Some? ==> Look(files, Backup(id, k)) == Op().targets[k].prior
      modifies this`faults, this`journal
      ensures Valid() && (s != Done ==> journal == old(journal))
      ensures s == Done ==> journal == RecordRow(old(journal), k, BackedUpRow(id, k, old(Op()).targets[k]))
      ensures Ran(1, true, old(faults), faults, s)
    {
      hide FineFor, Drop, Strikes;
      s := Step();
      if s != Done { return; }
      RecordBackupKeepsConsistent(files, journal, docs, orphans, k);
      journal := RecordRow(journal, k, BackedUpRow(id, k, journal[id].targets[k]));
    }

    /** The temporary file takes the destination's name. */
    method Rename(id: nat, k: nat)
      requires Valid() && Active(journal) && id == |journal| - 1 && k < |Op().rows|
      requires var t := Op().targets[k];
        && t.prior == Find(docs, t.dest) && Op().rows[k] == BackedUpRow(id, k, t)
        && Look(files, Temp(id, k)) == Some(t.result)
      modifies this`files
      ensures Valid() && files == Replaced(old(files), id, k, Op().targets[k])
    {
      ReplaceKeepsConsistent(files, journal, docs, orphans, k);
      ReplacedNames(files, |journal|, randomId, id, k, Op().targets[k]);
      hide Consistent, Find, NamesOk;
      files := files[Doc(journal[id].targets[k].dest) := files[Temp(id, k)]] - {Temp(id, k)};
    }

    /** Re-verification of the destination, then the rename. */
    method Replace(id: nat, k: nat) returns (s: Signal)
      requires Valid() && Active(journal) && id == |journal| - 1 && k < |Op().rows| && k < |Op().targets|
      requires var t := Op().targets[k];
        && t.prior == Find(docs, t.dest) && Op().rows[k] == BackedUpRow(id, k, t)
        && Look(files, Temp(id, k)) == Some(t.result)
      modifies this`files, this`faults
      ensures Valid() && (s != Done ==> files == old(files))
      ensures s == Done ==> files == Replaced(old(files), id, k, Op().targets[k])
      ensures var t := Op().targets[k]; Ran(1, Look(old(files), Doc(t.dest)) == t.prior, old(faults), faults, s)
    {
      hide FineFor, Drop, Strikes, Find, Replaced, BackedUpRow, Consistent;
      var t := journal[id].targets[k];
      s := Step();
      if s != Done { return; }
      if Look(files, Doc(t.dest)) != t.prior { return Failed; }
      Rename(id, k);
    }

    method RecordCommit(id: nat, k: nat) returns (s: Signal)
      requires Valid() && Active(journal) && id == |journal| - 1 && k < |Op().rows| && Temp(id, k) !in files
      requires var t := Op().targets[k]; t.prior == Find(docs, t.dest) && Op().rows[k] == BackedUpRow(id, k, t)
      modifies this`faults, this`journal
      ensures Valid() && (s != Done ==> journal == old(journal))
      ensures s == Done ==> journal == RecordRow(old(journal), k, CommittedRow(old(Op()).rows[k]))
      ensures Ran(1, true, old(faults), faults, s)
    {
      hide FineFor, Drop, Strikes;
      s := Step();
      if s != Done { return; }
      RecordCommitKeepsConsistent(files, journal, docs, orphans, k);
      journal := RecordRow(journal, k, CommittedRow(journal[id].rows[k]));
    }

    /** The hook, the backup and its record. */
    method BackUp(id: nat, k: nat) returns (s: Signal)
      requires Valid() && Active(journal) && id == |journal| - 1 && ReadyToCommit(k, Op(), id, files, docs)
      modifies this`files, this`faults, this`journal
      ensures Valid() && SameRun(old(journal), journal)
      ensures s == Done ==> files == WithBackup(old(files), id, k, old(Op()).targets[k])
      ensures s == Done ==> journal == RecordRow(old(journal), k, BackedUpRow(id, k, old(Op()).targets[k]))
      ensures Ran(CommitTargetSteps(old(Op()).targets[k]) - 3, true, old(faults), faults, s)
    {
      hide Ran, FineFor, Drop, Strikes, Consistent;
      ghost var copy: nat := if Op().targets[k].prior.Some? then 1 else 0;
      s := Step();
      ghost var s1 := faults;
      if s != Done {
        RanOut(1, true, copy + 1, true, old(faults), s1, s);
        return;
      }
      s := CopyAside(id, k);
      ghost var s2 := faults;
      if s != Done {
        RanOut(copy, true, 1, true, s1, s2, s);
        RanOn(1, true, copy + 1, true, old(faults), s1, s2, s);
        return;
      }
      s := RecordBackup(id, k);
      RanOn(copy, true, 1, true, s1, s2, faults, s);
      RanOn(1, true, copy + 1, true, old(faults), s1, faults, s);
    }

    /** The rename, its record and the hook after it. */
    method ReplaceAndRecord(id: nat, k: nat) returns (s: Signal)
      requires Valid() && Active(journal) && id == |journal| - 1 && k < |Op().rows| && k < |Op().targets|
      requires var t := Op().targets[k];
        && t.prior == Find(docs, t.dest) == Look(files, Doc(t.dest)) && Op().rows[k] == BackedUpRow(id, k, t)
        && Look(files, Temp(id, k)) == Some(t.result)
      modifies this`files, this`faults, this`journal
      ensures Valid() && (journal == old(journal) || SameRun(old(journal), journal))
      ensures s == Done ==> files == Replaced(old(files), id, k, old(Op()).targets[k])
      ensures s == Done ==> journal == RecordRow(old(journal), k, CommittedRow(old(Op()).rows[k]))
      ensures Ran(3, true, old(faults), faults, s)
    {
      hide Ran, FineFor, Drop, Strikes, Consistent;
      s := Replace(id, k);
      ghost var s1 := faults;
      if s != Done {
        RanOut(1, true, 2, true, old(faults), s1, s);
        return;
      }
      s := RecordCommit(id, k);
      ghost var s2 := faults;
      if s != Done {
        RanOut(1, true, 1, true, s1, s2, s);
        RanOn(1, true, 2, true, old(faults), s1, s2, s);
        return;
      }
      s := Step();
      RanOn(1, true, 1, true, s1, s2, faults, s);
      RanOn(1, true, 2, true, old(faults), s1, faults, s);
    }

    /** One turn of the commit loop: hook, backup, record, rename, record, hook. */
    method CommitTarget(id: nat, k: nat) returns (s: Signal)
      requires Valid() && Active(journal) && id == |journal| - 1 && ReadyToCommit(k, Op(), id, files, docs)
      modifies this`files, this`faults, this`journal
      ensures Valid() && SameRun(old(journal), journal)
      ensures s == Done ==> files == Replaced(WithBackup(old(files), id, k, old(Op()).targets[k]), id, k, old(Op()).targets[k])
      ensures s == Done ==> journal == RecordRow(old(journal), k, CommittedRow(BackedUpRow(id, k, old(Op()).targets[k])))
      ensures Ran(CommitTargetSteps(old(Op()).targets[k]), true, old(faults), faults, s)
    {
      hide Ran, FineFor, Drop, Strikes, Consistent;
      ghost var t := Op().targets[k];
      ghost var n: nat := CommitTargetSteps(t) - 3;
      s := BackUp(id, k);
      ghost var s1 := faults;
      if s != Done {
        RanOut(n, true, 3, true, old(faults), s1, s);
        return;
      }
      RecordTwice(old(journal), k, BackedUpRow(id, k, t), CommittedRow(BackedUpRow(id, k, t)));
      s := ReplaceAndRecord(id, k);
      RanOn(n, true, 3, true, old(faults), s1, faults, s);
    }

    method CommitAll(id: nat) returns (s: Signal)
      requires Valid() && Active(journal) && id == |journal| - 1 && CommittedUpTo(0, Op(), id, files, docs)
      modifies this`files, this`faults, this`journal
      ensures Valid() && SameRun(old(journal), journal)
      ensures s == Done ==> CommittedUpTo(|Op().rows|, Op(), id, files, docs)
      ensures Ran(CommitSteps(Op().targets), true, old(faults), faults, s)
    {
      hide FineFor, Drop, Strikes;
      ghost var targets := Op().targets;
      NoSteps(faults);
      assert targets[..0] == [];
      for k := 0 to |journal[id].rows|
        invariant Valid() && SameRun(old(journal), journal) && |Op().rows| == |old(Op()).rows| == |targets|
        invariant CommittedUpTo(k, Op(), id, files, docs) && Ran(CommitSteps(targets[..k]), true, old(faults), faults, Done)
      {
        ghost var op0, f0, script := Op(), files, faults;
        s := CommitTarget(id, k);
        CommitsRan(targets, k, old(faults), script, faults, s);
        if s != Done { return; }
        OneMoreCommitted(op0, id, k, f0, docs);
      }
      assert targets[..|targets|] == targets;
      return Done;
    }

    /** Journal update of the operation's status while it is still unfinished. */
    method Enter(status: Status) returns (s: Signal)
      requires Valid() && Active(journal) && status in {Prepared, Committing}
      modifies this`faults, this`journal
      ensures Valid() && Active(journal) && |journal| == |old(journal)|
      ensures s != Done ==> journal == old(journal)
      ensures s == Done ==> journal == WithStatus(old(journal), status)
      ensures Ran(1, true, old(faults), faults, s)
    {
      s := Step();
      if s != Done { return; }
      StatusDoesNotMatter(files, journal, docs, orphans, status);
      journal := WithStatus(journal, status);
    }

    /** Writes every temporary file and marks the operation prepared. */
    method PreparePhase(id: nat) returns (s: Signal)
      requires Valid() && Active(journal) && id == |journal| - 1
      requires PreparedUpTo(0, Op(), id, files) && Unstarted(Op().targets, files, docs)
      modifies this
      ensures Valid() && Active(journal) && SameTargets(old(journal), journal) && docs == old(docs)
      ensures orphans == old(orphans) + LeftTemps(id, |Op().targets|, old(faults))
      ensures s == Done ==> Primed(Op(), id, files, docs) && orphans == old(orphans)
      ensures Ran(PrepareSteps(|Op().targets|) + 1, true, old(faults), faults, s)
    {
      hide FineFor, Drop, Strikes, Consistent, PreparedUpTo, LeftTemps;
      ghost var f0, n := files, PrepareSteps(|Op().targets|);
      s := PrepareAll(id);
      ghost var s1 := faults;
      if s != Done {
        RanOut(n, true, 1, true, old(faults), s1, s);
        return;
      }
      NowPrimed(Op(), id, f0, files, docs);
      PrimedWhateverTheStatus(Op(), Prepared, id, files, docs);
      s := Enter(Prepared);
      RanOn(n, true, 1, true, old(faults), s1, faults, s);
    }

    /** Checks sources and destinations and marks the operation committing. */
    method VerifyPhase(id: nat, sources: seq<Source>) returns (s: Signal)
      requires Valid() && Active(journal) && id == |journal| - 1 && Primed(Op(), id, files, docs)
      modifies this`faults, this`journal
      ensures Valid() && Active(journal) && SameTargets(old(journal), journal)
      ensures s == Done ==> CommittedUpTo(0, Op(), id, files, docs)
      ensures Ran(2, AsCompiled(Op().targets, sources, docs), old(faults), faults, s)
    {
      hide FineFor, Drop, Strikes, AsCompiled, CommittedUpTo;
      InspectedIsCommitted(Op(), sources, id, files, docs);
      s := VerifyAll(id, sources);
      ghost var s1, ok := faults, AsCompiled(Op().targets, sources, docs);
      if s != Done {
        RanOut(1, ok, 1, true, old(faults), s1, s);
        return;
      }
      NowReady(journal, files, docs);
      s := Enter(Committing);
      RanOn(1, ok, 1, true, old(faults), s1, faults, s);
    }

    /** The commit loop and the final status. */
    method CommitPhase(id: nat) returns (s: Signal)
      requires Valid() && Active(journal) && id == |journal| - 1 && CommittedUpTo(0, Op(), id, files, docs)
      modifies this`files, this`faults, this`journal, this`docs
      ensures Valid() && SameTargets(old(journal), journal)
      ensures s != Done ==> Active(journal) && docs == old(docs)
      ensures s == Done ==> Op().status == Committed && docs == ResultAll(Op().targets, old(docs))
      ensures Ran(CommitSteps(Op().targets) + 1, true, old(faults), faults, s)
    {
      hide Ran, FineFor, Drop, Strikes, Consistent, CommittedUpTo;
      ghost var n := CommitSteps(Op().targets);
      s := CommitAll(id);
      ghost var s1 := faults;
      if s != Done {
        RanOut(n, true, 1, true, old(faults), s1, s);
        return;
      }
      s := Step();
      RanOn(n, true, 1, true, old(faults), s1, faults, s);
      if s != Done { return; }
      FinishCommit(files, journal, docs, orphans);
      docs := ResultAll(journal[id].targets, docs);
      journal := WithStatus(journal, Committed);
    }

    /**
      Prepare, verify and commit all targets; on failure the operation is left for rollback. It gets through exactly when
      every step works and sources and destinations still are as inspected.
     */
    method Run(id: nat, sources: seq<Source>) returns (s: Signal)
      requires Valid() && Active(journal) && id == |journal| - 1
      requires PreparedUpTo(0, Op(), id, files) && Unstarted(Op().targets, files, docs)
      modifies this
      ensures Valid() && SameTargets(old(journal), journal)
      ensures orphans == old(orphans) + LeftTemps(id, |Op().targets|, old(faults))
      ensures s != Done ==> Active(journal) && docs == old(docs)
      ensures s == Done ==> Op().status == Committed && docs == ResultAll(Op().targets, old(docs)) && orphans == old(orphans)
      ensures Ran(RunSteps(Op().targets), AsCompiled(Op().targets, sources, old(docs)), old(faults), faults, s)
    {
      hide Ran, FineFor, Drop, Strikes, Consistent, CommittedUpTo, PreparedUpTo, AsCompiled, Primed, LeftTemps;
      ghost var targets := Op().targets;
      ghost var a, c, ok := PrepareSteps(|targets|) + 1, CommitSteps(targets) + 1, AsCompiled(targets, sources, docs);
      s := PreparePhase(id);
      ghost var s1 := faults;
      if s != Done {
        RanOut(a, true, 2 + c, ok, old(faults), s1, s);
        return;
      }
      s := VerifyPhase(id, sources);
      ghost var s2 := faults;
      if s != Done {
        RanOut(2, ok, c, true, s1, s2, s);
        RanOn(a, true, 2 + c, ok, old(faults), s1, s2, s);
        return;
      }
      s := CommitPhase(id);
      RanOn(2, ok, c, true, s1, s2, faults, s);
      RanOn(a, true, 2 + c, ok, old(faults), s1, faults, s);
    }

    /** Inserts the operation and its targets in one transaction. */
    method Start(targets: seq<Target>) returns (s: Signal)
      requires Valid() && !Active(journal) && DistinctDests(targets)
      modifies this`journal, this`faults
      ensures Valid() && (s != Done ==> journal == old(journal))
      ensures s == Done ==> journal == old(journal) + [Fresh(targets)] && Active(journal)
      ensures s == Done ==> PreparedUpTo(0, Op(), |old(journal)|, files) && Unstarted(targets, files, docs)
      ensures Ran(1, true, old(faults), faults, s)
    {
      s := Step();
      if s != Done { return; }
      StartKeepsConsistent(files, journal, docs, orphans, targets);
      StartUnprepared(files, |journal|, randomId, targets);
      journal := journal + [Fresh(targets)];
    }

    /** Runs the operation; an error, unlike a crash, is followed by a rollback at once. */
    method RunOrRollBack(id: nat, sources: seq<Source>) returns (o: Outcome)
      requires Valid() && Active(journal) && id == |journal| - 1
      requires PreparedUpTo(0, Op(), id, files) && Unstarted(Op().targets, files, docs)
      modifies this
      ensures Valid() && old(orphans) <= orphans && |journal| == |old(journal)|
      ensures Ended(o, old(Op()).targets, sources, old(docs), journal, docs) && (o == WasCommitted ==> orphans == old(orphans))
      ensures EndsFor(o, old(Op()).targets, sources, old(docs), old(faults), faults)
      ensures Strikes(old(faults)) <= (if AsCompiled(old(Op()).targets, sources, old(docs)) then 1 else 0) ==>
        orphans == old(orphans) + LeftTemps(id, |old(Op()).targets|, old(faults))
    {
      hide FineFor, Drop, Consistent, AsCompiled, LeftTemps;
      var s := Run(id, sources);
      if s == Done { return WasCommitted; }
      if s == Crashed { return Interrupted; }
      ghost var rest, n := faults, RollbackSteps(Op(), files);
      ghost var turns;
      s, turns := Rollback(id);
      if Strikes(rest) == 0 { NoStrikes(n, rest); }
      o := match s case Done => WasRolledBack case Failed => RecoveryIncomplete case Crashed => Interrupted;
    }

    /** Recovery and the insertion of the operation; answers how the call ends if it ends here. */
    method RecoverAndStart(targets: seq<Target>) returns (early: Option<Outcome>)
      requires Valid() && DistinctDests(targets)
      modifies this
      ensures Valid() && old(orphans) <= orphans
      ensures var n := RecoverySteps(old(journal), old(files));
        Ran(n + 1, true, old(faults), faults, match early case None => Done case Some(Interrupted) => Crashed case _ => Failed)
      ensures early.None? ==> Active(journal) && Op().targets == targets && docs == AfterRecovery(old(journal), old(docs))
      ensures early.None? ==> |journal| == |old(journal)| + 1
      ensures early.None? ==> PreparedUpTo(0, Op(), |journal| - 1, files) && Unstarted(targets, files, docs) && orphans == old(orphans)
      ensures early.Some? ==> EndedEarly(early.value, old(journal), old(docs), journal, docs)
      ensures early == Some(NotStarted) ==> DocsOf(files) == docs
    {
      hide FineFor, Drop, Strikes, Consistent;
      ghost var n := RecoverySteps(journal, files);
      var s := Recover();
      ghost var s1 := faults;
      if s != Done {
        RanOut(n, true, 1, true, old(faults), s1, s);
        return Some(if s == Crashed then Interrupted else RecoveryIncomplete);
      }
      s := Start(targets);
      RanOn(n, true, 1, true, old(faults), s1, faults, s);
      if s != Done { return Some(if s == Crashed then Interrupted else NotStarted); }
      return None;
    }

    /**
      One composition, for every script of faults. It commits exactly when every step works and sources and destinations
      are as inspected; otherwise one error after the start, with nothing struck after it, ends in a complete rollback.
     */
    method Execute(targets: seq<Target>, sources: seq<Source>) returns (o: Outcome)
      requires Valid() && DistinctDests(targets)
      modifies this
      ensures Valid() && old(orphans) <= orphans
      ensures var base, n := AfterRecovery(old(journal), old(docs)), RecoverySteps(old(journal), old(files)) + 1;
        && (o == WasCommitted <==> AsCompiled(targets, sources, base) && FineFor(n + RunSteps(targets), old(faults)))
        && (FineFor(n, old(faults)) && FewStrikes(targets, sources, base, old(faults)) && o != WasCommitted ==> o == WasRolledBack)
        && Strikes(faults) <= Strikes(old(faults)) && (o == Interrupted ==> Strikes(faults) < Strikes(old(faults)))
      ensures var base := AfterRecovery(old(journal), old(docs));
        if |journal| > |old(journal)| then Ended(o, targets, sources, base, journal, docs)
        else EndedEarly(o, old(journal), old(docs), journal, docs)
      ensures AllOrNothing(o, targets, sources, AfterRecovery(old(journal), old(docs)), journal, docs)
           || (o == RecoveryIncomplete && GaveUp(journal))
      ensures var base, n := AfterRecovery(old(journal), old(docs)), RecoverySteps(old(journal), old(files)) + 1;
        FineFor(n, old(faults)) && Strikes(old(faults)) <= (if AsCompiled(targets, sources, base) then 1 else 0) ==>
          && |journal| == |old(journal)| + 1
          && orphans == old(orphans) + LeftTemps(|old(journal)|, |targets|, Drop(n, old(faults)))
      ensures Settled(o) ==> !Active(journal) && DocsOf(files) == docs
      ensures o == WasCommitted ==> orphans == old(orphans) && forall p :: p in files && IsTemporary(p) <==> p in orphans
    {
      hide FineFor, Drop, Strikes, Consistent, AsCompiled, AllOrNothing, LeftTemps;
      ghost var n := RecoverySteps(journal, files) + 1;
      DropSum(n, RunSteps(targets), faults);
      ghost var journal0, docs0 := journal, docs;
      var early := RecoverAndStart(targets);
      if early.Some? {
        EarlyIsAllOrNothing(early.value, targets, sources, journal0, docs0, journal, docs);
        return early.value;
      }
      ghost var s1 := faults;
      o := RunOrRollBack(|journal| - 1, sources);
      LateIsAllOrNothing(o, targets, sources, AfterRecovery(journal0, docs0), journal, docs);
      if Settled(o) { AllSettled(files, journal, docs, orphans); }
    }

    /**
      The process dies once, anywhere in the call, and is started again: nothing or everything has happened, the operation
      is marked rolled back. With sources and destinations as compiled, a temporary file is left exactly if the process died
      between creating and recording it.
     */
    method ExecuteThenRecover(targets: seq<Target>, sources: seq<Source>) returns (o: Outcome, s: Signal)
      requires Valid() && DistinctDests(targets) && Strikes(faults) <= 1
      modifies this
      ensures Valid()
      ensures o == Interrupted ==> s == Done && !Active(journal) && DocsOf(files) == docs
      ensures o == Interrupted ==> var base := AfterRecovery(old(journal), old(docs));
        docs == base || docs == ExpectAll(targets, base)
      ensures o == Interrupted && |journal| > |old(journal)| ==> Op().status == RolledBack
      ensures o == Interrupted ==> forall p :: p in files && IsTemporary(p) <==> p in orphans
      ensures var base, n := AfterRecovery(old(journal), old(docs)), RecoverySteps(old(journal), old(files)) + 1;
        o == Interrupted && AsCompiled(targets, sources, base) && FineFor(n, old(faults)) ==>
          && |journal| == |old(journal)| + 1
          && orphans == old(orphans) + LeftTemps(|old(journal)|, |targets|, Drop(n, old(faults)))
    {
      hide FineFor, Drop, Consistent, LeftTemps, AsCompiled;
      o := Execute(targets, sources);
      if Strikes(faults) == 0 { NoStrikes(RecoverySteps(journal, files), faults); }
      s := Recover();
    }
  }

  // ---------- What can go wrong ----------

  /**
    The promise that no temporary file outlives recovery fails for a crash between creating the file and recording it: a
    recovery that nothing disturbs comes to its end and the file stays.
   */
  method LeftoverSurvivesRecovery() returns (m: Manager)
    ensures m.Valid() && m.journal != [] && m.Op().status == RolledBack && !Active(m.journal) && Temp(0, 0) in m.files
  {
    var script := [Fine, Fine, Crashes];
    m := new Manager(map[], script);
    OneStep(script);
    var s := m.Start([Target("part", None, [1])]);
    s := m.PrepareTarget(0, 0);
    ghost var rest := [Fine, Crashes];
    assert LeavesTemp(rest) && Strikes(rest) == 1 && script[1..] == rest;
    NoStrikes(RecoverySteps(m.journal, m.files), m.faults);
    s := m.Recover();
  }

  /** The run of a composition with one target up to the commit loop. */
  method ReadyToCommitOne() returns (m: Manager)
    ensures fresh(m) && m.Valid() && |m.journal| == 1 && Active(m.journal) && m.faults == Fines(5, [Fails, Fails])
    ensures m.Op().targets == [Target("a", Some([0]), [1])] && CommittedUpTo(0, m.Op(), 0, m.files, m.docs)
  {
    hide FineFor, Drop, Strikes, Fines, Consistent, CommittedUpTo, PreparedUpTo, Primed;
    ghost var last := [Fails, Fails];
    m := new Manager(map["a" := [0]], Fines(12, [Fails, Fails]));
    FinesGive(1, 12, last);
    var s := m.Start([Target("a", Some([0]), [1])]);
    FinesGive(4, 11, last);
    s := m.PreparePhase(0);
    assert m.docs == map["a" := [0]];
    FinesGive(2, 7, last);
    s := m.VerifyPhase(0, []);
  }

  /** The commit of the target works and the hook after it fails. */
  method HookFailsAfterCommit() returns (m: Manager)
    ensures fresh(m) && m.Valid() && |m.journal| == 1 && Active(m.journal)
    ensures m.Op().targets == [Target("a", Some([0]), [1])] && Look(m.files, Doc("a")) == Some([1]) && m.faults == [Fails]
  {
    hide FineFor, Drop, Strikes, Fines, Consistent;
    ghost var last := [Fails, Fails];
    m := ReadyToCommitOne();
    FinesGive(3, 5, last);
    var s := m.BackUp(0, 0);
    FinesGive(1, 2, last);
    s := m.Replace(0, 0);
    FinesGive(1, 1, last);
    s := m.RecordCommit(0, 0);
    assert m.faults == last by { FinesEnd(last); }
    s := m.Step();
  }

  /**
    The promise that a failed composition is undone fails when a step of the rollback fails too: the hook after the commit
    of the only target fails, then the first look of the rollback. The operation is given up with its result in place, and
    the recovery after it passes it by.
   */
  method FailedRollbackKeepsResult() returns (m: Manager, s: Signal)
    ensures m.Valid() && s == Done && GaveUp(m.journal) && m.Op().targets == [Target("a", Some([0]), [1])]
    ensures Look(m.files, Doc("a")) == Some([1])
  {
    m := HookFailsAfterCommit();
    FirstStrike([Fails], m.Op(), m.files);
    ghost var op, files := m.Op(), m.files;
    ghost var turns;
    s, turns := m.Rollback(0);
    assert StartsWith(0, op, files, [Fails], turns, turns[0]);
    s := m.Recover();
  }

  function Twin(): seq<Target> { [Target("part", None, [1])] }

  /** The file is there after the first composition, which a second one did not expect, and not after its rollback. */
  lemma TwinIsDeleted()
    ensures DistinctDests(Twin()) && !PriorsHold(Twin(), ResultAll(Twin(), map[]))
    ensures Find(ResultAll(Twin(), map[]), "part") == Some([1])
    ensures Find(ExpectAll(Twin(), ResultAll(Twin(), map[])), "part") == None
  {
    ResultAllAt(Twin(), map[], "part");
    ExpectAllAt(Twin(), ResultAll(Twin(), map[]), "part");
    assert Twin()[0].prior != Find(ResultAll(Twin(), map[]), Twin()[0].dest);
  }

  /** A composition that creates a file, undisturbed. */
  method CreatePart() returns (m: Manager, o: Outcome)
    ensures fresh(m) && m.Valid() && o == WasCommitted && !Active(m.journal) && Strikes(m.faults) == 0
    ensures m.docs == ResultAll(Twin(), map[]) && DocsOf(m.files) == m.docs
  {
    hide FineFor, Drop, Consistent, Aftermath, AllOrNothing;
    m := new Manager(map[], []);
    NoStrikes(RecoverySteps(m.journal, m.files) + 1 + RunSteps(Twin()), m.faults);
    o := m.Execute(Twin(), []);
  }

  /** The same composition again, compiled before the first one ran. */
  method CreatePartAgain(m: Manager) returns (o: Outcome)
    requires m.Valid() && !Active(m.journal) && Strikes(m.faults) == 0 && m.docs == ResultAll(Twin(), map[])
    modifies m
    ensures m.Valid() && o == WasRolledBack && m.docs == ExpectAll(Twin(), old(m.docs)) && DocsOf(m.files) == m.docs
  {
    hide FineFor, Drop, Consistent, Aftermath, AllOrNothing, Expect, ExpectAll, ResultAll, PriorsHold, RunSteps, RecoverySteps,
         DistinctDests;
    TwinIsDeleted();
    NoStrikes(RecoverySteps(m.journal, m.files) + 1, m.faults);
    o := m.Execute(Twin(), []);
  }

  /**
    Two compositions that create the same file with the same content, both compiled before either ran: the second finds
    the destination changed, rolls back, takes the first one's file for its own and deletes it.
   */
  method StaleTwinDeletesCommitted() returns (m: Manager, first: Outcome, between: Option<bytes>, second: Outcome)
    ensures first == WasCommitted && between == Some([1]) && second == WasRolledBack && Look(m.files, Doc("part")) == None
  {
    hide Consistent, ExpectAll, ResultAll;
    TwinIsDeleted();
    m, first := CreatePart();
    between := Look(m.files, Doc("part"));
    assert between == Find(DocsOf(m.files), "part");
    second := CreatePartAgain(m);
    assert Look(m.files, Doc("part")) == Find(DocsOf(m.files), "part");
  }
}
