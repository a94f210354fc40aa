/**
  The used marks of several instances over one store: replaying an answer and detecting a reuse rest on them. The module
  says, for every run, when a save strikes a mark from the store, how the mark came on the list that does it, and what an
  instance started meanwhile answers.
 */
module RefreshMarks {
  import opened Results
  import opened RefreshTokens
  import opened RefreshStore
  import opened RefreshInstances
  import opened RefreshSurvival

  // ---------- What a step does to one used mark ----------

  /** The request exchanges the token, which is unused as far as the instance knows. */
  predicate ExchangesUnused(c: Config, s: Tables, request: Request, t: Token) {
    request.Exchange? && request.token == t && Rotates(c, s, t, request.client, request.given)
  }

  predicate ExchangeAt(c: Config, s: System, p: Step, t: Token, saved: bool) {
    && p.who < |s.insts| && p.event.Served? && p.event.env.saves == saved
    && ExchangesUnused(c, MemAt(s, p), p.event.request, t)
  }

  predicate RevokesMark(s: Tables, request: Request, t: Token) { t in s.used && RevokesAll(s, request, s.used[t].grant) }

  /**
    The step strikes the mark of `t`: it writes the store while `t` is on the saver's list of used marks to delete, or it is
    a saved revocation by an instance that remembers the mark; unless it is itself a saved exchange of `t`.
   */
  predicate StrikesMark(c: Config, s: System, p: Step, t: Token) {
    && p.who < |s.insts| && !ExchangeAt(c, s, p, t, true)
    && ((Writes(c, s, p) && t in s.insts[p.who].del.used)
        || (p.event.Served? && p.event.env.saves && RevokesMark(MemAt(s, p), p.event.request, t)))
  }

  /** The step writes the store and its instance remembers another answer for `t`. */
  predicate OverwritesMark(c: Config, s: System, p: Step, t: Token, u: Used) {
    && p.who < |s.insts| && Writes(c, s, p)
    && var used := Next(c, s, p).insts[p.who].mem.used; t in used && used[t] != u
  }

  /** What is on the list of used marks to delete is not remembered as used. */
  ghost predicate Apart(i: Instance) { i.mem.used.Keys !! i.del.used }

  lemma CleanApart(x: Site, now: int, works: bool)
    requires Apart(x.inst)
    ensures Apart(Clean(x, now, works).inst)
  {
  }

  lemma TryApart(c: Config, i: Instance, request: Request, e: Env)
    requires Apart(i) && WellFormed(i.mem)
    ensures var a := Try(c, i, request, e); a.Save? ==> Apart(a.done) && Apart(a.undone)
  {
  }

  lemma HandleApart(c: Config, x: Site, request: Request, e: Env, cleanupSaves: bool, reg: Registry)
    requires Apart(x.inst) && Tidy(x.disk, reg) && Tidy(x.inst.mem, reg)
    ensures Apart(HandleAt(c, x, request, e, cleanupSaves).inst)
  {
    hide Try, Clean, Merge;
    CleanApart(x, e.now, cleanupSaves);
    CleanTidy(x, e.now, cleanupSaves, reg);
    TryApart(c, Met(x, request, e, cleanupSaves).inst, request, e);
  }

  ghost predicate AllApart(s: System) { forall w :: 0 <= w < |s.insts| ==> Apart(s.insts[w]) }

  lemma {:induction false} RunApart(c: Config, run: seq<System>, steps: seq<Step>, k: nat)
    requires IsSystemRun(c, run, steps) && k <= |steps|
    ensures AllApart(run[k]) && |run[k].insts| == |run[0].insts|
  {
    if k > 0 {
      RunApart(c, run, steps, k - 1);
      var reg := RunSane(c, run, steps, k - 1);
      assert NextAt(c, run, steps, k - 1);
      var s, p := run[k - 1], steps[k - 1];
      hide IsSystemRun, NewToAll, HandleAt, Apart, Tidy, Live;
      if p.event.Served? {
        HandleApart(c, Site(s.disk, s.insts[p.who]), p.event.request, p.event.env, p.cleanupSaves, reg);
      }
    }
  }

  predicate CleanWrites(x: Site, now: int, works: bool) { works && Expired(x.inst.mem, now) != NONE_DELETED }

  /** A clean-up during the life of a mark. */
  lemma CleanMark(x: Site, now: int, works: bool, t: Token, reg: Registry)
    requires Tidy(x.disk, reg) && Tidy(x.inst.mem, reg) && Apart(x.inst) && t in x.disk.used && now < x.disk.used[t].expiresAt
    ensures var after, i := Clean(x, now, works), x.inst;
      && (t in after.disk.used <==> !(CleanWrites(x, now, works) && t in i.del.used))
      && (t in after.disk.used ==>
            after.disk.used[t] == if CleanWrites(x, now, works) && t in i.mem.used then i.mem.used[t] else x.disk.used[t])
      && (t in after.inst.del.used <==> t in i.del.used && !CleanWrites(x, now, works))
      && (t in after.inst.mem.used <==> t in i.mem.used) && (t in i.mem.used ==> after.inst.mem.used[t] == i.mem.used[t])
  {
  }

  /** What a request that is saved, or not, does to list and memory. */
  lemma TryMark(c: Config, i: Instance, request: Request, e: Env, t: Token)
    requires Apart(i) && WellFormed(i.mem)
    ensures var a := Try(c, i, request, e);
      a.Save? ==>
        && (t in a.done.mem.used <==> ExchangesUnused(c, i.mem, request, t) || (t in i.mem.used && !RevokesMark(i.mem, request, t)))
        && (t in a.done.del.used <==>
              !ExchangesUnused(c, i.mem, request, t) && (t in i.del.used || RevokesMark(i.mem, request, t)))
        && (t in a.undone.del.used <==> t in i.del.used || ExchangesUnused(c, i.mem, request, t))
        && a.undone.mem == i.mem
    ensures Try(c, i, request, e).NoSave? ==> !ExchangesUnused(c, i.mem, request, t) && !RevokesMark(i.mem, request, t)
  {
  }

  /** What a request does to one used mark in the store. */
  lemma HandleMark(c: Config, x: Site, request: Request, e: Env, cleanupSaves: bool, t: Token, reg: Registry)
    requires Tidy(x.disk, reg) && Tidy(x.inst.mem, reg) && Apart(x.inst) && t in x.disk.used && e.now < x.disk.used[t].expiresAt
    ensures var met, after := Met(x, request, e, cleanupSaves), HandleAt(c, x, request, e, cleanupSaves);
      var a := Try(c, met.inst, request, e);
      var exchanged := e.saves && ExchangesUnused(c, met.inst.mem, request, t);
      var writes := (!request.Revoke? && CleanWrites(x, e.now, cleanupSaves)) || (e.saves && a.Save?);
      && (t in after.disk.used <==>
            exchanged || !((writes && t in x.inst.del.used) || (e.saves && RevokesMark(met.inst.mem, request, t))))
      && (t in after.disk.used ==>
            after.disk.used[t] == if writes && t in after.inst.mem.used then after.inst.mem.used[t] else x.disk.used[t])
  {
    hide Try, RevokesMark, ExchangesUnused, Expired;
    var met := Met(x, request, e, cleanupSaves);
    if !request.Revoke? { CleanMark(x, e.now, cleanupSaves, t, reg); }
    CleanTidy(x, e.now, cleanupSaves, reg);
    CleanApart(x, e.now, cleanupSaves);
    TryMark(c, met.inst, request, e, t);
    SavedMark(met, Try(c, met.inst, request, e), e, t);
  }

  lemma SavedMark(x: Site, a: Attempt, e: Env, t: Token)
    requires t in x.disk.used ==> e.now < x.disk.used[t].expiresAt
    ensures var after := Settle(x, a, e);
      if e.saves && a.Save? then
        && (t in after.disk.used <==> t in a.done.mem.used || (t in x.disk.used && t !in a.done.del.used))
        && (t in after.disk.used ==> after.disk.used[t] == if t in a.done.mem.used then a.done.mem.used[t] else x.disk.used[t])
      else after.disk == x.disk
  {
  }

  /** A record of a token expires when every other record of it does. */
  lemma SameExpiry(c: Config, x: Site, request: Request, e: Env, cleanupSaves: bool, t: Token, reg: Registry)
    requires Tidy(x.disk, reg) && Tidy(x.inst.mem, reg) && FreshFor(x.disk, e) && FreshFor(x.inst.mem, e) && t in x.disk.used
    ensures var after := HandleAt(c, x, request, e, cleanupSaves).disk;
      t in after.used ==> after.used[t].expiresAt == x.disk.used[t].expiresAt
  {
    hide Try, Merge, Clean;
    var met := Met(x, request, e, cleanupSaves);
    HandleTidy(c, x, request, e, cleanupSaves, reg);
    CleanTidy(x, e.now, cleanupSaves, reg);
    CleanFresh(x, e.now, cleanupSaves, e);
    TryTidy(c, met.inst, request, e, reg);
  }

  lemma NextMark(c: Config, s: System, p: Step, t: Token, reg: Registry, earlier: int)
    requires p.who < |s.insts| && Sane(s, reg, earlier) && AllApart(s) && (p.event.Served? ==> NewToAll(s, p.event.env))
    requires t in s.disk.used && EventTime(p.event) < s.disk.used[t].expiresAt
    ensures var after, mem := Next(c, s, p).disk, Next(c, s, p).insts[p.who].mem;
      && (t in after.used <==> !StrikesMark(c, s, p, t))
      && (t in after.used ==> after.used[t].expiresAt == s.disk.used[t].expiresAt)
      && (t in after.used ==> after.used[t] == if Writes(c, s, p) && t in mem.used then mem.used[t] else s.disk.used[t])
  {
    if p.event.Served? {
      var x, e := Site(s.disk, s.insts[p.who]), p.event.env;
      CleanMemory(x, e.now, p.cleanupSaves);
      hide HandleAt, Try, Tidy, FreshFor, RevokesMark, ExchangesUnused, Expired, Apart, Live;
      HandleMark(c, x, p.event.request, e, p.cleanupSaves, t, reg);
      SameExpiry(c, x, p.event.request, e, p.cleanupSaves, t, reg);
    }
  }

  // ---------- How long a mark stays ----------

  lemma MarkAt(c: Config, run: seq<System>, steps: seq<Step>, m: nat, t: Token)
    requires IsSystemRun(c, run, steps) && m < |steps| && t in run[m].disk.used && Time(steps, m) < run[m].disk.used[t].expiresAt
    ensures t in run[m + 1].disk.used <==> !StrikesMark(c, run[m], steps[m], t)
    ensures t in run[m + 1].disk.used ==> run[m + 1].disk.used[t].expiresAt == run[m].disk.used[t].expiresAt
    ensures forall u :: t in run[m + 1].disk.used && run[m].disk.used[t] == u ==>
      (run[m + 1].disk.used[t] == u <==> !OverwritesMark(c, run[m], steps[m], t, u))
  {
    assert NextAt(c, run, steps, m);
    var reg := RunSane(c, run, steps, m);
    RunApart(c, run, steps, m);
    NextMark(c, run[m], steps[m], t, reg, if m == 0 then 0 else Time(steps, m - 1));
  }

  /**
    A used mark is in the store for the lifetime of its token, whatever is saved, fails and restarts, exactly until a step
    strikes it.
   */
  lemma {:induction false} UsedStaysIff(c: Config, run: seq<System>, steps: seq<Step>, i: nat, j: nat, t: Token)
    requires IsSystemRun(c, run, steps) && i <= j <= |steps| && t in run[i].disk.used
    requires forall m :: i <= m < j ==> Time(steps, m) < run[i].disk.used[t].expiresAt
    ensures (forall m :: i <= m <= j ==> t in run[m].disk.used) <==> (forall m :: i <= m < j ==> !StrikesMark(c, run[m], steps[m], t))
    decreases j - i
  {
    if i < j {
      MarkAt(c, run, steps, i, t);
      if t in run[i + 1].disk.used { UsedStaysIff(c, run, steps, i + 1, j, t); }
    }
  }

  /** The answer it was given stays with it exactly until, besides, an instance that remembers another one writes. */
  lemma {:induction false} AnswerStaysIff(c: Config, run: seq<System>, steps: seq<Step>, i: nat, j: nat, t: Token, u: Used)
    requires IsSystemRun(c, run, steps) && i <= j <= |steps| && t in run[i].disk.used && run[i].disk.used[t] == u
    requires forall m :: i <= m < j ==> Time(steps, m) < u.expiresAt
    ensures (forall m :: i <= m <= j ==> t in run[m].disk.used && run[m].disk.used[t] == u)
       <==> (forall m :: i <= m < j ==> !StrikesMark(c, run[m], steps[m], t) && !OverwritesMark(c, run[m], steps[m], t, u))
    decreases j - i
  {
    if i < j {
      MarkAt(c, run, steps, i, t);
      if t in run[i + 1].disk.used && run[i + 1].disk.used[t] == u { AnswerStaysIff(c, run, steps, i + 1, j, t, u); }
    }
  }

  // ---------- How a mark comes on the list ----------

  /**
    The step leaves the mark of `t` on the list without saving it: an exchange that could not be saved, or an expired mark
    cleaned up in a request that saves nothing.
   */
  predicate Lists(c: Config, s: System, p: Step, w: nat, t: Token) {
    && p.who == w < |s.insts| && p.event.Served?
    && var used := s.insts[w].mem.used;
       (|| ExchangeAt(c, s, p, t, false)
        || (!p.event.request.Revoke? && !Writes(c, s, p) && t in used && used[t].expiresAt <= p.event.env.now))
  }

  /** The instance saves, or is started again. */
  predicate Clears(c: Config, s: System, p: Step, w: nat) {
    p.who == w < |s.insts| && (p.event.Served? ==> Writes(c, s, p))
  }

  lemma NextList(c: Config, s: System, p: Step, w: nat, t: Token, reg: Registry, earlier: int)
    requires p.who < |s.insts| && w < |s.insts| && Sane(s, reg, earlier) && AllApart(s)
    ensures t in Next(c, s, p).insts[w].del.used <==> Lists(c, s, p, w, t) || (t in s.insts[w].del.used && !Clears(c, s, p, w))
  {
    if p.who == w && p.event.Served? {
      var x, e := Site(s.disk, s.insts[w]), p.event.env;
      CleanMemory(x, e.now, p.cleanupSaves);
      HandleList(c, x, p.event.request, e, p.cleanupSaves, t, reg);
    }
  }

  lemma HandleList(c: Config, x: Site, request: Request, e: Env, cleanupSaves: bool, t: Token, reg: Registry)
    requires Tidy(x.disk, reg) && Tidy(x.inst.mem, reg) && Apart(x.inst)
    ensures var met, after := Met(x, request, e, cleanupSaves), HandleAt(c, x, request, e, cleanupSaves);
      var writes := (!request.Revoke? && CleanWrites(x, e.now, cleanupSaves)) || (e.saves && Try(c, met.inst, request, e).Save?);
      t in after.inst.del.used <==>
        || (!e.saves && ExchangesUnused(c, met.inst.mem, request, t))
        || (!request.Revoke? && !writes && t in x.inst.mem.used && x.inst.mem.used[t].expiresAt <= e.now)
        || (t in x.inst.del.used && !writes)
  {
    hide Try, RevokesMark, ExchangesUnused, Expired;
    var met := Met(x, request, e, cleanupSaves);
    CleanList(x, e.now, cleanupSaves, t);
    CleanTidy(x, e.now, cleanupSaves, reg);
    CleanApart(x, e.now, cleanupSaves);
    TryMark(c, met.inst, request, e, t);
  }

  lemma CleanList(x: Site, now: int, works: bool, t: Token)
    ensures t in Clean(x, now, works).inst.del.used <==>
      !CleanWrites(x, now, works) && (t in x.inst.del.used || (t in x.inst.mem.used && x.inst.mem.used[t].expiresAt <= now))
  {
    var i := x.inst;
    assert t in Expired(i.mem, now).used <==> t in i.mem.used && i.mem.used[t].expiresAt <= now;
  }

  /** In every run a mark is on an instance's list exactly if a step put it there and the instance has not saved since. */
  lemma {:induction false} ListedIff(c: Config, run: seq<System>, steps: seq<Step>, j: nat, w: nat, t: Token)
    requires IsSystemRun(c, run, steps) && j <= |steps| && w < |run[0].insts| == |run[j].insts|
    ensures t in run[j].insts[w].del.used <==>
      exists i :: 0 <= i < j && Lists(c, run[i], steps[i], w, t) && forall m :: i < m < j ==> !Clears(c, run[m], steps[m], w)
  {
    hide Lists, Clears, Sane, AllApart, Next;
    if j > 0 {
      assert NextAt(c, run, steps, j - 1);
      RunApart(c, run, steps, j - 1);
      ListedIff(c, run, steps, j - 1, w, t);
      var reg := RunSane(c, run, steps, j - 1);
      NextList(c, run[j - 1], steps[j - 1], w, t, reg, if j == 1 then 0 else Time(steps, j - 2));
    }
  }

  // ---------- What an instance started meanwhile answers ----------

  /** A saved exchange leaves the token in the store with its answer. */
  lemma ExchangeMarks(c: Config, run: seq<System>, steps: seq<Step>, i: nat, t: Token)
    requires IsSystemRun(c, run, steps) && i < |steps| && ExchangeAt(c, run[i], steps[i], t, true)
    ensures var u := Retired(MemAt(run[i], steps[i]).refresh[t], steps[i].event.env);
      t in run[i + 1].disk.used && run[i + 1].disk.used[t] == u && u.client != ""
  {
    assert NextAt(c, run, steps, i);
    CleanMemory(Site(run[i].disk, run[i].insts[steps[i].who]), Time(steps, i), steps[i].cleanupSaves);
  }

  /**
    As long as nothing strikes or overwrites the mark of a saved exchange, an instance started from the store answers the
    token as the exchange did while the grace period is open, and afterwards detects its reuse.
   */
  lemma FreshInstanceReplays(c: Config, run: seq<System>, steps: seq<Step>, i: nat, j: nat, t: Token, given: string, e: Env)
    requires IsSystemRun(c, run, steps) && i < j < |steps| && ExchangeAt(c, run[i], steps[i], t, true)
    requires steps[j].event.Restarted? && steps[j].who < |run[j].insts| && Time(steps, j) <= e.now
    requires e.now < MemAt(run[i], steps[i]).refresh[t].expiresAt
    requires var u := Retired(MemAt(run[i], steps[i]).refresh[t], steps[i].event.env);
      forall m :: i < m < j ==> !StrikesMark(c, run[m], steps[m], t) && !OverwritesMark(c, run[m], steps[m], t, u)
    ensures var mem, r := Next(c, run[j], steps[j]).insts[steps[j].who].mem, MemAt(run[i], steps[i]).refresh[t];
      var again := Served(Exchange(t, r.client, given), e);
      var replays := e.now <= Time(steps, i) + REPLAY_GRACE && ResourceOk(c, given, r.resource);
      && Answer(c, mem, again) == (if replays then Granted(NewBody(steps[i].event.env, r.scope)) else InvalidGrant)
      && (DetectsReuse(c, mem, again) <==> !replays)
  {
    var r := MemAt(run[i], steps[i]).refresh[t];
    var u := Retired(r, steps[i].event.env);
    ExchangeMarks(c, run, steps, i, t);
    forall m | i + 1 <= m < j ensures Time(steps, m) < u.expiresAt { assert Time(steps, m) <= Time(steps, j); }
    AnswerStaysIff(c, run, steps, i + 1, j, t, u);
    assert t in run[j].disk.used && run[j].disk.used[t] == u;
    var reg := RunSane(c, run, steps, j);
    UsedAnswers(c, Next(c, run[j], steps[j]).insts[steps[j].who].mem, Served(Exchange(t, r.client, given), e), u);
  }

  // ---------- Forgotten use ----------

  /**
    An exchange that could not be saved leaves its token on the list of used marks to delete. When another instance then
    exchanges the same token, the next save of the first one strikes that mark from the store: the token's answer can be
    replayed at no instance started afterwards, although the exchange itself stays.
   */
  lemma FailedExchangeForgetsUse(c: Config, d: Tables, t: Token, given: string, failing: Env, working: Env, later: Env,
                                 client: string, scope: string, resource: string)
    requires WellFormed(d) && t in d.refresh && Rotates(c, d, t, d.refresh[t].client, given)
    requires !failing.saves && working.saves && later.saves && later.now < working.now + REFRESH_TTL
    requires FreshFor(d, failing) && FreshFor(d, working) && FreshFor(d, later)
    requires working.refresh != later.refresh && working.refresh != failing.refresh && later.grant != d.refresh[t].grant
    requires Expired(d, failing.now) == Expired(d, working.now) == Expired(d, later.now) == NONE_DELETED
    requires d.refresh[t].expiresAt < working.now + REFRESH_TTL
    ensures var start, exchange := Instance(d, NONE_DELETED), Exchange(t, d.refresh[t].client, given);
      var one := HandleAt(c, Site(d, start), exchange, failing, false).inst;
      var two := HandleAt(c, Site(d, start), exchange, working, false);
      var end := HandleAt(c, Site(two.disk, one), Redeem(client, scope, resource), later, false).disk;
      t in two.disk.used && t !in end.used && working.refresh in end.refresh
  {
    hide Rotates, Merge, WellFormed, Expired, TryMint;
    var start, exchange := Instance(d, NONE_DELETED), Exchange(t, d.refresh[t].client, given);
    NothingExpired(d, working.now);
    var one := HandleAt(c, Site(d, start), exchange, failing, false).inst;
    Exchanged(c, start, t, given, failing);
    var two := HandleAt(c, Site(d, start), exchange, working, false);
    Exchanged(c, start, t, given, working);
    RotationStored(d, t, working);
    StaleSaves(d, two.disk, t, working, one, Redeem(client, scope, resource), later, c);
  }

  lemma Exchanged(c: Config, start: Instance, t: Token, given: string, e: Env)
    requires t in start.mem.refresh && Rotates(c, start.mem, t, start.mem.refresh[t].client, given)
    requires Expired(start.mem, e.now) == NONE_DELETED
    ensures var x := HandleAt(c, Site(start.mem, start), Exchange(t, start.mem.refresh[t].client, given), e, false);
      var a := TryRotate(start, t, e);
      if e.saves then x.disk == Merge(start.mem, a.done.mem, a.done.del, e.now) else x.inst == a.undone
  {
  }

  lemma StaleSaves(d: Tables, disk: Tables, t: Token, e: Env, one: Instance, request: Request, later: Env, c: Config)
    requires WellFormed(d) && t in d.refresh && disk == Rotate(d, t, e) && FreshFor(d, e) && later.now < e.now + REFRESH_TTL
    requires d.refresh[t].expiresAt < e.now + REFRESH_TTL && e.refresh != later.refresh && FreshFor(d, later)
    requires one.mem == d && t in one.del.used && e.refresh !in one.del.refresh && request.Redeem? && later.saves
    requires later.grant != d.refresh[t].grant && Expired(d, later.now) == NONE_DELETED
    ensures var end := HandleAt(c, Site(disk, one), request, later, false).disk; t !in end.used && e.refresh in end.refresh
  {
    var done := TryMint(one, request.client, request.scope, request.resource, later).done;
    StaleMintKeeps(d, disk, t, e, done, later);
  }

  lemma RotationStored(d: Tables, t: Token, e: Env)
    requires WellFormed(d) && t in d.refresh && FreshFor(d, e) && Live(d, e.now) == d
    ensures var rotated := TryRotate(Instance(d, NONE_DELETED), t, e).done;
      Merge(d, rotated.mem, rotated.del, e.now) == Rotate(d, t, e)
  {
    var rotated := TryRotate(Instance(d, NONE_DELETED), t, e).done;
    assert WellFormed(rotated.mem);
    MergeIsMemory(d, rotated.mem, rotated.del, e.now);
  }

  lemma StaleMintKeeps(d: Tables, disk: Tables, t: Token, e: Env, done: Instance, later: Env)
    requires WellFormed(d) && t in d.refresh && disk == Rotate(d, t, e) && FreshFor(d, e) && later.now < e.now + REFRESH_TTL
    requires d.refresh[t].expiresAt < e.now + REFRESH_TTL && e.refresh != later.refresh
    requires done.mem.used == d.used && t in done.del.used && e.refresh !in done.del.refresh
    requires later.refresh in done.mem.refresh && done.mem.refresh == d.refresh[later.refresh := done.mem.refresh[later.refresh]]
    requires done.mem.refresh[later.refresh].grant != d.refresh[t].grant
    ensures var end := Merge(disk, done.mem, done.del, later.now); t !in end.used && e.refresh in end.refresh
  {
    var m := Candidates(disk, done.mem, done.del, later.now);
    assert e.refresh in m && m[e.refresh].expiresAt == e.now + REFRESH_TTL && m[e.refresh].grant == d.refresh[t].grant;
    forall o | o in m && m[o].grant == m[e.refresh].grant && o != e.refresh ensures Beats(m, e.refresh, o) { assert o == t; }
    assert IsPreferred(m, e.refresh);
  }

  /**
    Two instances: a code redeemed at the first, the second started, an exchange of the token that the first cannot save, the
    same exchange at the second, and another code at the first.
   */
  const FORGOTTEN: seq<Step> := [
    Step(0, Served(Redeem("app", "", "api"), Env(0, true, 0, 1, 0)), true),
    Step(1, Restarted(0), true),
    Step(0, Served(Exchange(1, "app", "api"), Env(1, false, 2, 3, 1)), true),
    Step(1, Served(Exchange(1, "app", "api"), Env(2, true, 4, 5, 2)), true),
    Step(0, Served(Redeem("app", "", "api"), Env(3, true, 6, 7, 3)), true)]

  lemma ForgottenDraws()
    ensures NoCollisions(Events(FORGOTTEN))
    ensures forall a, b :: 0 <= a <= b < |FORGOTTEN| ==> Time(FORGOTTEN, a) <= Time(FORGOTTEN, b)
  {
  }

  /** The redeemed token is in the store and remembered where it was redeemed. */
  lemma ForgottenStarts(run: seq<System>)
    requires IsSystemRun(REUSE_AT, run, FORGOTTEN) && |run[0].insts| == 2
    ensures var r := Record("app", "", "api", 0, REFRESH_TTL);
      && 1 in run[1].disk.refresh && run[1].disk.refresh[1] == r
      && |run[1].insts| == 2 && 1 in run[1].insts[0].mem.refresh && run[1].insts[0].mem.refresh[1] == r
  {
    var steps, p := FORGOTTEN, FORGOTTEN[0];
    assert NextAt(REUSE_AT, run, steps, 0);
    MemoryIsServed(REUSE_AT, Site(run[0].disk, run[0].insts[0]), p.event.request, p.event.env, true);
    var r := NewestAlong(REUSE_AT, run, steps, 0, 1, 0);
  }

  /** The second instance learns the token, and the first forgets nothing. */
  lemma ForgottenLearnt(run: seq<System>)
    requires IsSystemRun(REUSE_AT, run, FORGOTTEN) && |run[0].insts| == 2
    ensures var r := Record("app", "", "api", 0, REFRESH_TTL);
      && |run[2].insts| == |run[3].insts| == 2
      && 1 in run[2].insts[0].mem.refresh && run[2].insts[0].mem.refresh[1] == r
      && 1 in run[3].insts[1].mem.refresh && run[3].insts[1].mem.refresh[1] == r
  {
    ForgottenStarts(run);
    assert NextAt(REUSE_AT, run, FORGOTTEN, 1) && NextAt(REUSE_AT, run, FORGOTTEN, 2);
    hide IsSystemRun, NewToAll, HandleAt;
    assert run[2].insts[0] == run[1].insts[0] && run[2].insts[1].mem == Live(run[1].disk, 0);
    assert run[3].insts[1] == run[2].insts[1];
  }

  /** The first cannot save its exchange, the second does. */
  lemma ForgottenExchanges(run: seq<System>)
    requires IsSystemRun(REUSE_AT, run, FORGOTTEN) && |run[0].insts| == 2
    ensures ExchangeAt(REUSE_AT, run[2], FORGOTTEN[2], 1, false) && ExchangeAt(REUSE_AT, run[3], FORGOTTEN[3], 1, true)
    ensures MemAt(run[3], FORGOTTEN[3]).refresh[1].expiresAt == REFRESH_TTL
  {
    ForgottenLearnt(run);
    hide IsSystemRun;
  }

  /** The mark is in the store, and on the list of the first instance. */
  lemma ForgottenListed(run: seq<System>)
    requires IsSystemRun(REUSE_AT, run, FORGOTTEN) && |run[0].insts| == 2
    ensures 1 in run[4].disk.used && run[4].disk.used[1].expiresAt == REFRESH_TTL
    ensures |run[4].insts| == 2 && 1 in run[4].insts[0].del.used
  {
    ForgottenExchanges(run);
    RunApart(REUSE_AT, run, FORGOTTEN, 4);
    RunApart(REUSE_AT, run, FORGOTTEN, 2);
    ExchangeMarks(REUSE_AT, run, FORGOTTEN, 3, 1);
    ListedIff(REUSE_AT, run, FORGOTTEN, 4, 0, 1);
    hide IsSystemRun, ExchangeAt, MemAt, AllApart;
    assert Lists(REUSE_AT, run[2], FORGOTTEN[2], 0, 1) && !Clears(REUSE_AT, run[3], FORGOTTEN[3], 0);
  }

  lemma RedeemStrikes(c: Config, s: System, p: Step, t: Token)
    requires p.who < |s.insts| && p.event.Served? && p.event.env.saves && p.event.request.Redeem? && t in s.insts[p.who].del.used
    ensures StrikesMark(c, s, p, t)
  {
  }

  lemma ForgottenRun() returns (run: seq<System>)
    ensures IsSystemRun(REUSE_AT, run, FORGOTTEN) && |run| == 6 && |run[0].insts| == 2
  {
    ForgottenDraws();
    run := RunAlong(REUSE_AT, 2, FORGOTTEN, 5);
    hide IsSystemRun, SystemDrawn, NoCollisions;
    assert FORGOTTEN[..5] == FORGOTTEN;
  }

  /** A run in which a mark is struck: the second instance has exchanged the token, and the store no longer knows it. */
  lemma MarkIsForgotten() returns (run: seq<System>)
    ensures IsSystemRun(REUSE_AT, run, FORGOTTEN) && StrikesMark(REUSE_AT, run[4], FORGOTTEN[4], 1)
    ensures 1 in run[4].disk.used && 1 !in run[5].disk.used
  {
    run := ForgottenRun();
    hide IsSystemRun, StrikesMark;
    ForgottenListed(run);
    RedeemStrikes(REUSE_AT, run[4], FORGOTTEN[4], 1);
    UsedStaysIff(REUSE_AT, run, FORGOTTEN, 4, 5, 1);
  }
}
