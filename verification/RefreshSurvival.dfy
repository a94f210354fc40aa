/**
  Which tokens of several instances over one store survive, for every run: the newest refresh token of a grant, access
  tokens, and the absence of a revoked grant. What becomes of used marks is in RefreshMarks.
 */
module RefreshSurvival {
  import opened Results
  import opened RefreshTokens
  import opened RefreshStore
  import opened RefreshInstances

  // ---------- What a step does to one grant ----------

  /** What the instance remembers when the request is decided. */
  function MemAt(s: System, p: Step): Tables
    requires p.who < |s.insts|
  {
    var mem := s.insts[p.who].mem;
    if p.event.Served? && p.event.request.Revoke? then mem else Live(mem, EventTime(p.event))
  }

  /** The request hands out a pair of the grant. */
  predicate MintsFor(c: Config, s: Tables, request: Request, e: Env, g: Grant) {
    match request
    case Redeem(_, _, _) => e.grant == g
    case Exchange(token, client, given) => Rotates(c, s, token, client, given) && s.refresh[token].grant == g
    case Revoke(_, _) => false
  }

  predicate RevokesAll(s: Tables, request: Request, g: Grant) {
    request.Revoke? && request.client != "" && Owned(s, request.token, request.client) == Some(g)
  }

  /** The request takes this unused token away: by revocation, or because a used one of its grant came back. */
  predicate Removes(c: Config, s: Tables, request: Request, e: Env, t: Token) {
    && t in s.refresh
    && match request
       case Redeem(_, _, _) => false
       case Exchange(token, client, given) =>
         Reuses(c, s, token, client, given, e.now) && s.used[token].grant == s.refresh[t].grant
       case Revoke(_, _) => RevokesAll(s, request, s.refresh[t].grant)
  }

  predicate SavedMint(c: Config, s: System, p: Step, g: Grant) {
    p.who < |s.insts| && p.event.Served? && p.event.env.saves && MintsFor(c, MemAt(s, p), p.event.request, p.event.env, g)
  }

  predicate SavedRemoval(c: Config, s: System, p: Step, t: Token) {
    p.who < |s.insts| && p.event.Served? && p.event.env.saves && Removes(c, MemAt(s, p), p.event.request, p.event.env, t)
  }

  predicate SavedRevocation(s: System, p: Step, a: Token) {
    && p.who < |s.insts| && p.event.Served? && p.event.env.saves && a in MemAt(s, p).access
    && RevokesAll(MemAt(s, p), p.event.request, MemAt(s, p).access[a].grant)
  }

  // ---------- The newest refresh token of a grant ----------

  /** In these tables nothing can take the place of the unused token `t` of record `r`. */
  ghost predicate Leads(s: Tables, t: Token, r: Record) {
    && (t in s.refresh ==> s.refresh[t] == r) && t !in s.used
    && forall o :: o in s.refresh && s.refresh[o].grant == r.grant && o != t ==> Yields(s.refresh[o].expiresAt, o, r.expiresAt, t)
  }

  /** A pair that expires at `mine` gives way to the other: it expires earlier, or at the same time and its token is smaller. */
  predicate Yields(mine: int, o: Token, yours: int, t: Token) { mine < yours || (mine == yours && o < t) }

  ghost predicate NoBetter(i: Instance, t: Token, r: Record) { Leads(i.mem, t, r) && t !in i.del.refresh }

  ghost predicate Kept(x: Site, t: Token, r: Record) {
    t in x.disk.refresh && Leads(x.disk, t, r) && NoBetter(x.inst, t, r)
  }

  lemma PersistKeeps(x: Site, now: int, works: bool, t: Token, r: Record)
    requires Kept(x, t, r) && now < r.expiresAt
    ensures Kept(Persist(x, now, works), t, r)
  {
    var m := Candidates(x.disk, x.inst.mem, x.inst.del, now);
    assert t in m && m[t] == r;
    assert IsPreferred(m, t);
  }

  lemma CleanKeeps(x: Site, now: int, works: bool, t: Token, r: Record)
    requires Kept(x, t, r) && now < r.expiresAt
    ensures Kept(Clean(x, now, works), t, r)
  {
    if Expired(x.inst.mem, now) != NONE_DELETED { PersistKeeps(x.(inst := Expire(x.inst, now)), now, works, t, r); }
  }

  /** A pair of the grant that the request hands out does not take the place of `t`. */
  predicate Loses(request: Request, e: Env, t: Token, expiresAt: int) {
    !(request.Exchange? && request.token == t) && Yields(e.now + REFRESH_TTL, e.refresh, expiresAt, t)
  }

  /** What another grant's requests, a pair that loses, and requests that are not saved leave alone. */
  lemma TryKeeps(c: Config, i: Instance, request: Request, e: Env, t: Token, r: Record)
    requires NoBetter(i, t, r) && NewTo(i, e) && t != e.refresh && r.grant != e.grant
    ensures var a := Try(c, i, request, e);
      a.Save? ==> && NoBetter(a.undone, t, r)
                  && ((MintsFor(c, i.mem, request, e, r.grant) && !Loses(request, e, t, r.expiresAt))
                      || Removes(c, i.mem, request, e, t) || NoBetter(a.done, t, r))
  {
  }

  lemma HandleKeeps(c: Config, x: Site, request: Request, e: Env, cleanupSaves: bool, t: Token, r: Record)
    requires Kept(x, t, r) && e.now < r.expiresAt && NewTo(x.inst, e) && FreshFor(x.disk, e)
    requires var met := Met(x, request, e, cleanupSaves);
      e.saves ==> && (MintsFor(c, met.inst.mem, request, e, r.grant) ==> Loses(request, e, t, r.expiresAt))
                  && !Removes(c, met.inst.mem, request, e, t)
    ensures Kept(HandleAt(c, x, request, e, cleanupSaves), t, r)
  {
    var met := Met(x, request, e, cleanupSaves);
    CleanKeeps(x, e.now, cleanupSaves, t, r);
    CleanNew(x, e.now, cleanupSaves, e);
    TryKeeps(c, met.inst, request, e, t, r);
    var a := Try(c, met.inst, request, e);
    if a.Save? && e.saves { PersistKeeps(met.(inst := a.done), e.now, true, t, r); }
  }

  lemma CleanNew(x: Site, now: int, works: bool, e: Env)
    requires NewTo(x.inst, e) && FreshFor(x.disk, e)
    ensures NewTo(Clean(x, now, works).inst, e)
  {
    CleanFresh(x, now, works, e);
  }

  /** A saved request that takes the token away takes it from the store. */
  lemma RemovalReachesStore(c: Config, x: Site, request: Request, e: Env, cleanupSaves: bool, t: Token)
    requires e.saves && Removes(c, Met(x, request, e, cleanupSaves).inst.mem, request, e, t)
    ensures t !in HandleAt(c, x, request, e, cleanupSaves).disk.refresh
  {
    var met := Met(x, request, e, cleanupSaves);
    var a := Try(c, met.inst, request, e);
    if request.Exchange? {
      assert t in TokensOf(met.inst.mem.refresh, met.inst.mem.used[request.token].grant);
    } else {
      assert t in TokensOf(met.inst.mem.refresh, met.inst.mem.refresh[t].grant);
    }
    assert a.Save? && t in a.done.del.refresh && t !in a.done.mem.refresh;
  }

  /** Every refresh token of the grant gives way to one minted at `now` with token `t`. */
  ghost predicate Older(s: Tables, g: Grant, now: int, t: Token) {
    forall o :: o in s.refresh && s.refresh[o].grant == g ==> Yields(s.refresh[o].expiresAt, o, now + REFRESH_TTL, t)
  }

  ghost predicate AllOlder(s: System, g: Grant, now: int, t: Token) {
    Older(s.disk, g, now, t) && forall w :: 0 <= w < |s.insts| ==> Older(s.insts[w].mem, g, now, t)
  }

  lemma MergeOlder(disk: Tables, i: Instance, at: int, g: Grant, now: int, t: Token)
    requires Older(disk, g, now, t) && Older(i.mem, g, now, t)
    ensures Older(Merge(disk, i.mem, i.del, at), g, now, t)
  {
  }

  lemma MetOlder(x: Site, request: Request, e: Env, cleanupSaves: bool, g: Grant, now: int, t: Token)
    requires Older(x.disk, g, now, t) && Older(x.inst.mem, g, now, t)
    ensures var met := Met(x, request, e, cleanupSaves); Older(met.disk, g, now, t) && Older(met.inst.mem, g, now, t)
  {
    hide Merge;
    MergeOlder(x.disk, Expire(x.inst, e.now), e.now, g, now, t);
  }

  lemma HandleOlder(c: Config, x: Site, request: Request, e: Env, cleanupSaves: bool, g: Grant, now: int, t: Token)
    requires Older(x.disk, g, now, t) && Older(x.inst.mem, g, now, t)
    requires e.saves && MintsFor(c, Met(x, request, e, cleanupSaves).inst.mem, request, e, g) ==> Yields(e.now, e.refresh, now, t)
    ensures var after := HandleAt(c, x, request, e, cleanupSaves); Older(after.disk, g, now, t) && Older(after.inst.mem, g, now, t)
  {
    hide Merge;
    MetOlder(x, request, e, cleanupSaves, g, now, t);
    var met := Met(x, request, e, cleanupSaves);
    var a := Try(c, met.inst, request, e);
    if a.Save? && e.saves { MergeOlder(met.disk, a.done, e.now, g, now, t); }
  }

  /** As long as every saved pair of the grant gives way to it. */
  lemma {:induction false} OlderAlong(c: Config, run: seq<System>, steps: seq<Step>, k: nat, g: Grant, now: int, t: Token)
    requires IsSystemRun(c, run, steps) && k <= |steps|
    requires forall m :: 0 <= m < k && SavedMint(c, run[m], steps[m], g) ==> Yields(Time(steps, m), steps[m].event.env.refresh, now, t)
    ensures AllOlder(run[k], g, now, t)
  {
    hide MintsFor;
    if k > 0 {
      OlderAlong(c, run, steps, k - 1, g, now, t);
      assert NextAt(c, run, steps, k - 1);
      var s, p := run[k - 1], steps[k - 1];
      if p.event.Served? {
        var x := Site(s.disk, s.insts[p.who]);
        CleanMemory(x, p.event.env.now, p.cleanupSaves);
        HandleOlder(c, x, p.event.request, p.event.env, p.cleanupSaves, g, now, t);
      }
    }
  }

  /** A saved pair to which everything else of its grant gives way is what the store has. */
  lemma MintLeads(c: Config, x: Site, request: Request, e: Env, cleanupSaves: bool, g: Grant, reg: Registry)
    requires Tidy(x.disk, reg) && Tidy(x.inst.mem, reg) && Older(x.disk, g, e.now, e.refresh) && Older(x.inst.mem, g, e.now, e.refresh)
    requires NewTo(x.inst, e) && FreshFor(x.disk, e) && e.saves
    requires MintsFor(c, Met(x, request, e, cleanupSaves).inst.mem, request, e, g)
    ensures var after := HandleAt(c, x, request, e, cleanupSaves);
      && e.refresh in after.disk.refresh && after.disk.refresh[e.refresh].grant == g
      && after.disk.refresh[e.refresh].expiresAt == e.now + REFRESH_TTL
      && Kept(after, e.refresh, after.disk.refresh[e.refresh])
  {
    hide Try, Clean, Persist, MintsFor, Older, FreshFor, Kept;
    var met := Met(x, request, e, cleanupSaves);
    CleanTidy(x, e.now, cleanupSaves, reg);
    CleanFresh(x, e.now, cleanupSaves, e);
    MetOlder(x, request, e, cleanupSaves, g, e.now, e.refresh);
    TryMints(c, met.inst, request, e, g);
    var a := Try(c, met.inst, request, e);
    var r := a.done.mem.refresh[e.refresh];
    SavedPairLeads(met.disk, met.inst.mem, a.done, e, r);
    KeptIsStored(Settle(met, a, e), e.refresh, r);
  }

  lemma KeptIsStored(x: Site, t: Token, r: Record)
    requires Kept(x, t, r)
    ensures t in x.disk.refresh && x.disk.refresh[t] == r
  {
  }

  lemma TryMints(c: Config, i: Instance, request: Request, e: Env, g: Grant)
    requires MintsFor(c, i.mem, request, e, g) && FreshFor(i.mem, e)
    ensures var a := Try(c, i, request, e);
      && a.Save? && e.refresh in a.done.mem.refresh && e.refresh !in a.done.mem.used && e.refresh !in a.done.del.refresh
      && a.done.mem.refresh[e.refresh].grant == g && a.done.mem.refresh[e.refresh].expiresAt == e.now + REFRESH_TTL
      && forall o :: o in a.done.mem.refresh && o != e.refresh ==> o in i.mem.refresh && a.done.mem.refresh[o] == i.mem.refresh[o]
  {
  }

  lemma SavedPairLeads(disk: Tables, mem: Tables, done: Instance, e: Env, r: Record)
    requires WellFormed(mem) && Older(disk, r.grant, e.now, e.refresh) && Older(mem, r.grant, e.now, e.refresh) && FreshFor(disk, e)
    requires e.refresh in done.mem.refresh && done.mem.refresh[e.refresh] == r && r.expiresAt == e.now + REFRESH_TTL
    requires e.refresh !in done.mem.used && e.refresh !in done.del.refresh
    requires forall o :: o in done.mem.refresh && o != e.refresh ==> o in mem.refresh && done.mem.refresh[o] == mem.refresh[o]
    ensures Kept(Persist(Site(disk, done), e.now, true), e.refresh, r)
  {
    var m := Candidates(disk, done.mem, done.del, e.now);
    assert e.refresh in m && m[e.refresh] == r;
    forall o | o in m && o != e.refresh && m[o].grant == r.grant ensures Yields(m[o].expiresAt, o, r.expiresAt, e.refresh) { }
    assert IsPreferred(m, e.refresh);
  }

  /** Everywhere in the system. */
  ghost predicate KeptByAll(s: System, t: Token, r: Record) {
    && t in s.disk.refresh && Leads(s.disk, t, r)
    && forall w :: 0 <= w < |s.insts| ==> NoBetter(s.insts[w], t, r)
  }

  lemma NextKeeps(c: Config, s: System, p: Step, t: Token, r: Record)
    requires p.who < |s.insts| && KeptByAll(s, t, r) && EventTime(p.event) < r.expiresAt
    requires p.event.Served? ==> NewToAll(s, p.event.env)
    requires SavedMint(c, s, p, r.grant) ==> Loses(p.event.request, p.event.env, t, r.expiresAt)
    requires !SavedRemoval(c, s, p, t)
    ensures KeptByAll(Next(c, s, p), t, r)
  {
    if p.event.Served? {
      var x := Site(s.disk, s.insts[p.who]);
      CleanMemory(x, p.event.env.now, p.cleanupSaves);
      HandleKeeps(c, x, p.event.request, p.event.env, p.cleanupSaves, t, r);
    }
  }

  lemma MintKeptByAll(c: Config, s: System, p: Step, g: Grant, reg: Registry, earlier: int)
    requires Sane(s, reg, earlier) && SavedMint(c, s, p, g) && NewToAll(s, p.event.env)
    requires AllOlder(s, g, EventTime(p.event), p.event.env.refresh)
    ensures var t, after := p.event.env.refresh, Next(c, s, p);
      && t in after.disk.refresh && after.disk.refresh[t].grant == g
      && after.disk.refresh[t].expiresAt == EventTime(p.event) + REFRESH_TTL && KeptByAll(after, t, after.disk.refresh[t])
  {
    var x, e := Site(s.disk, s.insts[p.who]), p.event.env;
    CleanMemory(x, e.now, p.cleanupSaves);
    MintLeads(c, x, p.event.request, e, p.cleanupSaves, g, reg);
    var r := Next(c, s, p).disk.refresh[e.refresh];
    forall w | 0 <= w < |s.insts| && w != p.who ensures NoBetter(s.insts[w], e.refresh, r) { assert NewTo(s.insts[w], e); }
  }

  /**
    At step `m` the store stops having `t`, minted for grant `g` at step `i`: a pair of the grant is saved that comes from an
    exchange of `t`, is minted later, or is minted in the same millisecond and has the larger token; or `t` is removed.
   */
  predicate Ends(c: Config, run: seq<System>, steps: seq<Step>, i: nat, m: nat, g: Grant)
    requires i < |steps| < |run| && m < |steps| && steps[i].event.Served?
  {
    var t := steps[i].event.env.refresh;
    || (SavedMint(c, run[m], steps[m], g) && !Loses(steps[m].event.request, steps[m].event.env, t, Time(steps, i) + REFRESH_TTL))
    || SavedRemoval(c, run[m], steps[m], t)
  }

  /** Every pair of the grant saved before step `i` was minted earlier, or in the same millisecond with a smaller token. */
  ghost predicate WinsSoFar(c: Config, run: seq<System>, steps: seq<Step>, i: nat, g: Grant)
    requires i < |steps| < |run| && steps[i].event.Served?
  {
    forall m :: 0 <= m < i && SavedMint(c, run[m], steps[m], g) ==>
      Yields(Time(steps, m), steps[m].event.env.refresh, Time(steps, i), steps[i].event.env.refresh)
  }

  /** Up to step `j` nothing ends it, and it does not expire. */
  ghost predicate Unended(c: Config, run: seq<System>, steps: seq<Step>, i: nat, j: nat, g: Grant)
    requires i < j <= |steps| < |run| && steps[i].event.Served?
  {
    forall m :: i < m < j ==> !Ends(c, run, steps, i, m, g) && Time(steps, m) < Time(steps, i) + REFRESH_TTL
  }

  /** As long as nothing ends it, the token just minted stays and leads everywhere. */
  lemma {:induction false} NewestAlong(c: Config, run: seq<System>, steps: seq<Step>, i: nat, j: nat, g: Grant) returns (r: Record)
    requires IsSystemRun(c, run, steps) && i < j <= |steps| && SavedMint(c, run[i], steps[i], g)
    requires WinsSoFar(c, run, steps, i, g)
    requires Unended(c, run, steps, i, j, g)
    ensures KeptByAll(run[j], steps[i].event.env.refresh, r) && r.grant == g && r.expiresAt == Time(steps, i) + REFRESH_TTL
  {
    hide KeptByAll, SavedRemoval, NewToAll, Next;
    var t := steps[i].event.env.refresh;
    if j == i + 1 {
      var reg := RunSane(c, run, steps, i);
      assert NextAt(c, run, steps, i);
      OlderAlong(c, run, steps, i, g, Time(steps, i), t);
      MintKeptByAll(c, run[i], steps[i], g, reg, if i == 0 then 0 else Time(steps, i - 1));
      r := run[j].disk.refresh[t];
    } else {
      r := NewestAlong(c, run, steps, i, j - 1, g);
      assert NextAt(c, run, steps, j - 1) && !Ends(c, run, steps, i, j - 1, g);
      NextKeeps(c, run[j - 1], steps[j - 1], t, r);
    }
  }

  /** A pair of the same grant that does not lose takes the place of the token in the store. */
  lemma MintReplaces(c: Config, s: System, p: Step, g: Grant, t: Token, r: Record)
    requires SavedMint(c, s, p, g) && NewToAll(s, p.event.env) && KeptByAll(s, t, r) && r.grant == g
    requires !Loses(p.event.request, p.event.env, t, r.expiresAt)
    ensures t !in Next(c, s, p).disk.refresh
  {
    var x, e, request := Site(s.disk, s.insts[p.who]), p.event.env, p.event.request;
    CleanMemory(x, e.now, p.cleanupSaves);
    CleanFresh(x, e.now, p.cleanupSaves, e);
    var met := Met(x, request, e, p.cleanupSaves);
    TryMints(c, met.inst, request, e, g);
    SameRecord(c, x, request, e, p.cleanupSaves, t, r);
    PairDisplaces(met.disk, Try(c, met.inst, request, e).done, request, e, t, r, g);
  }

  lemma PairDisplaces(disk: Tables, done: Instance, request: Request, e: Env, t: Token, r: Record, g: Grant)
    requires e.refresh in done.mem.refresh && e.refresh !in done.mem.used && e.refresh !in disk.used && t != e.refresh
    requires done.mem.refresh[e.refresh].grant == g == r.grant && done.mem.refresh[e.refresh].expiresAt == e.now + REFRESH_TTL
    requires request.Exchange? && request.token == t ==> t in done.mem.used
    requires !Loses(request, e, t, r.expiresAt)
    requires var after := Merge(disk, done.mem, done.del, e.now).refresh; t in after ==> after[t] == r
    ensures t !in Merge(disk, done.mem, done.del, e.now).refresh
  {
    var m := Candidates(disk, done.mem, done.del, e.now);
    assert e.refresh in m && m[e.refresh] == done.mem.refresh[e.refresh];
    assert t in m && m[t] == r ==> Beats(m, e.refresh, t);
  }

  /** Wherever the token is after a request, its record is the one it had. */
  lemma SameRecord(c: Config, x: Site, request: Request, e: Env, cleanupSaves: bool, t: Token, r: Record)
    requires (t in x.disk.refresh ==> x.disk.refresh[t] == r) && (t in x.inst.mem.refresh ==> x.inst.mem.refresh[t] == r)
    requires t != e.refresh
    ensures var after := HandleAt(c, x, request, e, cleanupSaves).disk.refresh; t in after ==> after[t] == r
  {
    hide Try;
    var met := Met(x, request, e, cleanupSaves);
    CleanMemory(x, e.now, cleanupSaves);
    assert t in met.disk.refresh ==> met.disk.refresh[t] == r;
    TryRecord(c, met.inst, request, e, t, r);
  }

  lemma TryRecord(c: Config, i: Instance, request: Request, e: Env, t: Token, r: Record)
    requires t in i.mem.refresh ==> i.mem.refresh[t] == r
    requires t != e.refresh
    ensures var a := Try(c, i, request, e); a.Save? && t in a.done.mem.refresh ==> a.done.mem.refresh[t] == r
  {
  }

  lemma EndsIt(c: Config, run: seq<System>, steps: seq<Step>, i: nat, m: nat, g: Grant, r: Record)
    requires IsSystemRun(c, run, steps) && i < m < |steps| && steps[i].event.Served? && Ends(c, run, steps, i, m, g)
    requires KeptByAll(run[m], steps[i].event.env.refresh, r) && r.grant == g && r.expiresAt == Time(steps, i) + REFRESH_TTL
    ensures steps[i].event.env.refresh !in run[m + 1].disk.refresh
  {
    var s, p, t := run[m], steps[m], steps[i].event.env.refresh;
    assert NextAt(c, run, steps, m);
    if SavedRemoval(c, s, p, t) {
      var x := Site(s.disk, s.insts[p.who]);
      CleanMemory(x, EventTime(p.event), p.cleanupSaves);
      RemovalReachesStore(c, x, p.event.request, p.event.env, p.cleanupSaves, t);
    } else {
      MintReplaces(c, s, p, g, t, r);
    }
  }

  /**
    A rotation that was saved stays in the store whatever instances that have not heard of it save, exactly until a pair of
    the grant to which it gives way is saved by any instance, or an instance that holds the token revokes it or drops it for
    a reuse. Of several pairs saved in one millisecond it is the one with the largest token so far.
   */
  lemma {:induction false} RotationStaysIff(c: Config, run: seq<System>, steps: seq<Step>, i: nat, j: nat, g: Grant)
    requires IsSystemRun(c, run, steps) && i < j <= |steps| && SavedMint(c, run[i], steps[i], g)
    requires WinsSoFar(c, run, steps, i, g)
    requires forall m :: i < m < j ==> Time(steps, m) < Time(steps, i) + REFRESH_TTL
    ensures var t := steps[i].event.env.refresh;
      (forall m :: i < m <= j ==> t in run[m].disk.refresh) <==> (forall m :: i < m < j ==> !Ends(c, run, steps, i, m, g))
  {
    var t := steps[i].event.env.refresh;
    if forall m :: i < m < j ==> !Ends(c, run, steps, i, m, g) {
      forall m | i < m <= j ensures t in run[m].disk.refresh {
        assert Unended(c, run, steps, i, m, g);
        var r := NewestAlong(c, run, steps, i, m, g);
      }
    } else {
      RotationStaysIff(c, run, steps, i, j - 1, g);
      if forall m :: i < m < j - 1 ==> !Ends(c, run, steps, i, m, g) {
        assert Ends(c, run, steps, i, j - 1, g);
        var r := NewestAlong(c, run, steps, i, j - 1, g);
        EndsIt(c, run, steps, i, j - 1, g, r);
        assert t !in run[j].disk.refresh;
      }
    }
  }

  /** While it stays, it is the only unused token of its grant in the store; pairs that give way to it do not reach the store. */
  lemma OnlyTheNewest(c: Config, run: seq<System>, steps: seq<Step>, i: nat, j: nat, g: Grant)
    requires IsSystemRun(c, run, steps) && i < j <= |steps| && SavedMint(c, run[i], steps[i], g)
    requires WinsSoFar(c, run, steps, i, g)
    requires Unended(c, run, steps, i, j, g)
    ensures forall o :: o in run[j].disk.refresh && run[j].disk.refresh[o].grant == g <==> o == steps[i].event.env.refresh
  {
    var r := NewestAlong(c, run, steps, i, j, g);
    var reg := RunSane(c, run, steps, j);
  }

  /** An instance started meanwhile remembers that token, and no other unused one of the grant. */
  lemma FreshInstanceAccepts(c: Config, run: seq<System>, steps: seq<Step>, i: nat, j: nat, g: Grant)
    requires IsSystemRun(c, run, steps) && i < j < |steps| && SavedMint(c, run[i], steps[i], g)
    requires WinsSoFar(c, run, steps, i, g)
    requires forall m :: i < m < j ==> !Ends(c, run, steps, i, m, g)
    requires forall m :: i < m <= j ==> Time(steps, m) < Time(steps, i) + REFRESH_TTL
    requires steps[j].event.Restarted? && steps[j].who < |run[j].insts|
    ensures var mem := Next(c, run[j], steps[j]).insts[steps[j].who].mem;
      forall o :: o in mem.refresh && mem.refresh[o].grant == g <==> o == steps[i].event.env.refresh
  {
    var r := NewestAlong(c, run, steps, i, j, g);
    OnlyTheNewest(c, run, steps, i, j, g);
    assert Time(steps, j) < r.expiresAt;
  }

  // ---------- Access tokens ----------

  ghost predicate AccessSafe(i: Instance, a: Token, r: Record) {
    (a in i.mem.access ==> i.mem.access[a] == r) && a !in i.del.access
  }

  ghost predicate AccessKept(x: Site, a: Token, r: Record) {
    a in x.disk.access && x.disk.access[a] == r && AccessSafe(x.inst, a, r)
  }

  lemma HandleKeepsAccess(c: Config, x: Site, request: Request, e: Env, cleanupSaves: bool, a: Token, r: Record)
    requires AccessKept(x, a, r) && e.now < r.expiresAt && a != e.access
    requires var mem := Met(x, request, e, cleanupSaves).inst.mem;
      e.saves && a in mem.access ==> !RevokesAll(mem, request, r.grant)
    ensures AccessKept(HandleAt(c, x, request, e, cleanupSaves), a, r)
  {
    var met := Met(x, request, e, cleanupSaves);
    assert AccessKept(met, a, r);
    var tried := Try(c, met.inst, request, e);
    assert tried.Save? ==> AccessSafe(tried.undone, a, r) && (e.saves ==> AccessSafe(tried.done, a, r));
  }

  ghost predicate AccessKeptByAll(s: System, a: Token, r: Record) {
    a in s.disk.access && s.disk.access[a] == r && forall w :: 0 <= w < |s.insts| ==> AccessSafe(s.insts[w], a, r)
  }

  lemma NextKeepsAccess(c: Config, s: System, p: Step, a: Token, r: Record)
    requires p.who < |s.insts| && AccessKeptByAll(s, a, r) && EventTime(p.event) < r.expiresAt
    requires p.event.Served? ==> NewToAll(s, p.event.env)
    requires !SavedRevocation(s, p, a)
    ensures AccessKeptByAll(Next(c, s, p), a, r)
  {
    if p.event.Served? {
      var x := Site(s.disk, s.insts[p.who]);
      CleanMemory(x, p.event.env.now, p.cleanupSaves);
      HandleKeepsAccess(c, x, p.event.request, p.event.env, p.cleanupSaves, a, r);
    }
  }

  lemma MintKeepsAccess(c: Config, s: System, p: Step, g: Grant)
    requires SavedMint(c, s, p, g) && NewToAll(s, p.event.env)
    ensures var a, after := p.event.env.access, Next(c, s, p);
      a in after.disk.access && after.disk.access[a].expiresAt == EventTime(p.event) + ACCESS_TTL
      && AccessKeptByAll(after, a, after.disk.access[a])
  {
    var x, e := Site(s.disk, s.insts[p.who]), p.event.env;
    CleanMemory(x, e.now, p.cleanupSaves);
    forall w | 0 <= w < |s.insts| && w != p.who
      ensures e.access !in s.insts[w].mem.access && e.access !in s.insts[w].del.access
    {
      assert NewTo(s.insts[w], e);
    }
  }

  lemma {:induction false} AccessAlong(c: Config, run: seq<System>, steps: seq<Step>, i: nat, j: nat, g: Grant) returns (r: Record)
    requires IsSystemRun(c, run, steps) && i < j <= |steps| && SavedMint(c, run[i], steps[i], g)
    requires forall m :: i < m < j ==> Time(steps, m) < Time(steps, i) + ACCESS_TTL
    requires forall m :: i < m < j ==> !SavedRevocation(run[m], steps[m], steps[i].event.env.access)
    ensures AccessKeptByAll(run[j], steps[i].event.env.access, r) && r.expiresAt == Time(steps, i) + ACCESS_TTL
  {
    hide AccessKeptByAll, Next, MintsFor, RevokesAll, MemAt;
    var a := steps[i].event.env.access;
    if j == i + 1 {
      assert NextAt(c, run, steps, i);
      MintKeepsAccess(c, run[i], steps[i], g);
      r := run[j].disk.access[a];
    } else {
      r := AccessAlong(c, run, steps, i, j - 1, g);
      assert NextAt(c, run, steps, j - 1);
      assert Time(steps, j - 1) < r.expiresAt;
      NextKeepsAccess(c, run[j - 1], steps[j - 1], a, r);
    }
  }

  /** A saved access token stays in the store for its lifetime, exactly until an instance that holds it revokes its grant. */
  lemma AccessStaysIff(c: Config, run: seq<System>, steps: seq<Step>, i: nat, j: nat, g: Grant)
    requires IsSystemRun(c, run, steps) && i < j <= |steps| && SavedMint(c, run[i], steps[i], g)
    requires forall m :: i < m < j ==> Time(steps, m) < Time(steps, i) + ACCESS_TTL
    ensures var a := steps[i].event.env.access;
      (forall m :: i < m <= j ==> a in run[m].disk.access) <==> (forall m :: i < m < j ==> !SavedRevocation(run[m], steps[m], a))
  {
    var a := steps[i].event.env.access;
    if forall m :: i < m < j ==> !SavedRevocation(run[m], steps[m], a) {
      forall m | i < m <= j ensures a in run[m].disk.access { var r := AccessAlong(c, run, steps, i, m, g); }
    } else {
      var m :| i < m < j && SavedRevocation(run[m], steps[m], a);
      assert NextAt(c, run, steps, m);
      assert a in TokensOf(run[m].insts[steps[m].who].mem.access, MemAt(run[m], steps[m]).access[a].grant);
      assert a !in run[m + 1].disk.access;
    }
  }

  /** An instance started meanwhile accepts it, whatever became of the refresh token of the pair. */
  lemma FreshInstanceAcceptsAccess(c: Config, run: seq<System>, steps: seq<Step>, i: nat, j: nat, g: Grant)
    requires IsSystemRun(c, run, steps) && i < j < |steps| && SavedMint(c, run[i], steps[i], g)
    requires forall m :: i < m < j ==> !SavedRevocation(run[m], steps[m], steps[i].event.env.access)
    requires steps[j].event.Restarted? && steps[j].who < |run[j].insts| && Time(steps, j) < Time(steps, i) + ACCESS_TTL
    ensures var mem, a := Next(c, run[j], steps[j]).insts[steps[j].who].mem, steps[i].event.env.access;
      forall now :: Time(steps, j) <= now ==> (AcceptsAccess(mem, a, now) <==> now < Time(steps, i) + ACCESS_TTL)
  {
    forall m | i < m < j ensures Time(steps, m) < Time(steps, i) + ACCESS_TTL { assert Time(steps, m) <= Time(steps, j); }
    var r := AccessAlong(c, run, steps, i, j, g);
  }

  // ---------- Revoked grants ----------

  /** Whatever the store has of the grant the instance remembers or is about to delete. */
  ghost predicate Covers(x: Site, g: Grant) {
    && (forall t :: t in x.disk.access && x.disk.access[t].grant == g ==> t in x.inst.mem.access || t in x.inst.del.access)
    && (forall t :: t in x.disk.refresh && x.disk.refresh[t].grant == g ==> t in x.inst.mem.refresh || t in x.inst.del.refresh)
    && (forall t :: t in x.disk.used && x.disk.used[t].grant == g ==> t in x.inst.mem.used || t in x.inst.del.used)
  }

  /** One of at most two unused tokens of a grant is preferred. */
  lemma SomePreferred(disk: Tables, mem: Tables, del: Deleted, now: int, t: Token, reg: Registry)
    requires Tidy(disk, reg) && Tidy(mem, reg) && t in mem.refresh && t in Candidates(disk, mem, del, now)
    ensures exists o :: o in Merge(disk, mem, del, now).refresh && Merge(disk, mem, del, now).refresh[o].grant == mem.refresh[t].grant
  {
    var m := Candidates(disk, mem, del, now);
    assert m[t] == mem.refresh[t];
    forall a, b | a in m && b in m && a != t && b != t && m[a].grant == m[b].grant == m[t].grant ensures a == b {
      assert a in disk.refresh && b in disk.refresh;
    }
    OneOfTwoPreferred(m, t);
    assert Merge(disk, mem, del, now).refresh == PreferredOnly(m);
  }

  lemma OneOfTwoPreferred(m: map<Token, Record>, t: Token)
    requires t in m && forall a, b :: a in m && b in m && a != t && b != t && m[a].grant == m[b].grant == m[t].grant ==> a == b
    ensures exists o :: o in PreferredOnly(m) && PreferredOnly(m)[o].grant == m[t].grant
  {
    if IsPreferred(m, t) {
      assert t in PreferredOnly(m);
    } else {
      var o :| o in m && m[o].grant == m[t].grant && o != t && !Beats(m, t, o);
      assert IsPreferred(m, o);
      assert o in PreferredOnly(m);
    }
  }

  /** What the saver remembers of a grant shows in the store: the tokens themselves, or that one of them was used. */
  lemma RememberedShows(disk: Tables, i: Instance, now: int, g: Grant, reg: Registry)
    requires Tidy(disk, reg) && Tidy(i.mem, reg) && !Gone(i.mem, g)
    ensures !Gone(Merge(disk, i.mem, i.del, now), g)
  {
    var merged := Merge(disk, i.mem, i.del, now);
    if t :| t in i.mem.access && i.mem.access[t].grant == g {
      assert t in merged.access && merged.access[t].grant == g;
    } else if t :| t in i.mem.used && i.mem.used[t].grant == g {
      assert t in merged.used && merged.used[t].grant == g;
    } else {
      var t :| t in i.mem.refresh && i.mem.refresh[t].grant == g;
      if t in merged.used {
        assert merged.used[t].grant == g;
      } else {
        SomePreferred(disk, i.mem, i.del, now, t, reg);
      }
    }
  }

  lemma CoveredGone(disk: Tables, i: Instance, now: int, g: Grant, reg: Registry)
    requires Tidy(disk, reg) && Tidy(i.mem, reg) && Covers(Site(disk, i), g) && Gone(i.mem, g)
    ensures Gone(Merge(disk, i.mem, i.del, now), g)
  {
    var merged := Merge(disk, i.mem, i.del, now);
    forall t | t in merged.refresh ensures merged.refresh[t].grant != g { assert t in Candidates(disk, i.mem, i.del, now); }
  }

  /**
    A save of an instance that covers the grant, in particular over a store that has nothing of it, leaves the grant out
    of the store exactly when the instance remembers nothing of it.
   */
  lemma SavedGoneIff(disk: Tables, i: Instance, now: int, g: Grant, reg: Registry)
    requires Tidy(disk, reg) && Tidy(i.mem, reg) && Covers(Site(disk, i), g)
    ensures Gone(Merge(disk, i.mem, i.del, now), g) <==> Gone(i.mem, g)
  {
    if Gone(i.mem, g) { CoveredGone(disk, i, now, g, reg); } else { RememberedShows(disk, i, now, g, reg); }
  }

  /** A saved revocation clears the store exactly when the instance knew everything the store had of the grant. */
  lemma RevocationReachesIff(c: Config, x: Site, request: Request, e: Env, g: Grant, reg: Registry)
    requires Tidy(x.disk, reg) && Tidy(x.inst.mem, reg) && e.saves && RevokesAll(x.inst.mem, request, g)
    ensures Gone(HandleAt(c, x, request, e, false).disk, g) <==> Covers(Site(Live(x.disk, e.now), x.inst), g)
  {
    var live := Live(x.disk, e.now);
    var done := TryRevoke(x.inst, g).done;
    RevokeSaves(c, x, request, e, g, reg);
    hide Tidy, Covers, Gone, Merge, Live, TryRevoke, HandleAt, RevokesAll;
    MergeOfLive(x.disk, done, e.now);
    RevokedCovers(live, x.inst, g, reg);
    if Covers(Site(live, x.inst), g) {
      SavedGoneIff(live, done, e.now, g, reg);
    } else {
      NotCoveredStays(live, done, e.now, g, reg);
    }
  }

  lemma RevokeSaves(c: Config, x: Site, request: Request, e: Env, g: Grant, reg: Registry)
    requires Tidy(x.disk, reg) && e.saves && RevokesAll(x.inst.mem, request, g)
    ensures var done := TryRevoke(x.inst, g).done;
      HandleAt(c, x, request, e, false).disk == Merge(x.disk, done.mem, done.del, e.now)
    ensures Tidy(Live(x.disk, e.now), reg)
  {
  }

  lemma RevokedCovers(disk: Tables, i: Instance, g: Grant, reg: Registry)
    requires Tidy(disk, reg) && Tidy(i.mem, reg)
    ensures var done := TryRevoke(i, g).done;
      Tidy(done.mem, reg) && Gone(done.mem, g) && (Covers(Site(disk, done), g) <==> Covers(Site(disk, i), g))
  {
  }

  lemma MergeOfLive(disk: Tables, i: Instance, now: int)
    ensures Merge(disk, i.mem, i.del, now) == Merge(Live(disk, now), i.mem, i.del, now)
    ensures Live(disk, now) == Live(Live(disk, now), now)
  {
    assert LiveRecords(LiveRecords(disk.access, now), now) == LiveRecords(disk.access, now);
    assert LiveRecords(LiveRecords(disk.refresh, now), now) == LiveRecords(disk.refresh, now);
    assert LiveUsed(LiveUsed(disk.used, now), now) == LiveUsed(disk.used, now);
  }

  lemma NotCoveredStays(disk: Tables, i: Instance, now: int, g: Grant, reg: Registry)
    requires Tidy(disk, reg) && Tidy(i.mem, reg) && disk == Live(disk, now)
    requires !Covers(Site(disk, i), g) && Gone(i.mem, g)
    ensures !Gone(Merge(disk, i.mem, i.del, now), g)
  {
    var merged := Merge(disk, i.mem, i.del, now);
    if t: Token :| t in disk.access && disk.access[t].grant == g && t !in i.mem.access && t !in i.del.access {
      assert t in merged.access && merged.access[t].grant == g;
    } else if t: Token :| t in disk.used && disk.used[t].grant == g && t !in i.mem.used && t !in i.del.used {
      assert t in merged.used && merged.used[t].grant == g;
    } else {
      var t :| t in disk.refresh && disk.refresh[t].grant == g && t !in i.mem.refresh && t !in i.del.refresh;
      UnusedStays(disk, i, now, t, reg);
    }
  }

  lemma UnusedStays(disk: Tables, i: Instance, now: int, t: Token, reg: Registry)
    requires Tidy(disk, reg) && Tidy(i.mem, reg) && disk == Live(disk, now) && t in disk.refresh && t !in i.del.refresh
    requires Gone(i.mem, disk.refresh[t].grant)
    ensures t in Merge(disk, i.mem, i.del, now).refresh
         && Merge(disk, i.mem, i.del, now).refresh[t].grant == disk.refresh[t].grant
  {
    var m := Candidates(disk, i.mem, i.del, now);
    assert t !in i.mem.refresh && t !in i.mem.used && t !in disk.used;
    assert t in m && m[t] == disk.refresh[t] && IsPreferred(m, t);
  }

  /** The step writes the store. */
  predicate Writes(c: Config, s: System, p: Step)
    requires p.who < |s.insts|
  {
    && p.event.Served?
    && var x := Site(s.disk, s.insts[p.who]);
       var met := Met(x, p.event.request, p.event.env, p.cleanupSaves);
       || (!p.event.request.Revoke? && p.cleanupSaves && Expired(x.inst.mem, p.event.env.now) != NONE_DELETED)
       || (p.event.env.saves && Try(c, met.inst, p.event.request, p.event.env).Save?)
  }

  lemma CleanCovers(x: Site, now: int, works: bool, g: Grant, reg: Registry)
    requires Tidy(x.disk, reg) && Tidy(x.inst.mem, reg) && Gone(x.disk, g)
    ensures var after := Clean(x, now, works);
      && Tidy(after.disk, reg) && Tidy(after.inst.mem, reg) && Covers(after, g)
      && (Gone(after.disk, g) <==> !(works && Expired(x.inst.mem, now) != NONE_DELETED && !Gone(after.inst.mem, g)))
  {
    CleanTidy(x, now, works, reg);
    if works && Expired(x.inst.mem, now) != NONE_DELETED {
      SavedGoneIff(x.disk, Expire(x.inst, now), now, g, reg);
      MergeCovered(x.disk, Expire(x.inst, now), now, g);
    }
  }

  /** Over a store that had nothing of the grant, what is there afterwards is what the saver remembers. */
  lemma MergeCovered(disk: Tables, i: Instance, now: int, g: Grant)
    requires Gone(disk, g)
    ensures Covers(Site(Merge(disk, i.mem, i.del, now), Instance(i.mem, NONE_DELETED)), g)
  {
    var merged := Merge(disk, i.mem, i.del, now);
    forall t | t in merged.refresh && merged.refresh[t].grant == g ensures t in i.mem.refresh {
      assert t in Candidates(disk, i.mem, i.del, now);
    }
  }

  lemma TryCovers(c: Config, disk: Tables, i: Instance, request: Request, e: Env, g: Grant, reg: Registry)
    requires Tidy(disk, reg) && Tidy(i.mem, reg) && FreshFor(disk, e) && Covers(Site(disk, i), g)
    requires Try(c, i, request, e).Save? && !MintsFor(c, i.mem, request, e, g)
    ensures Covers(Site(disk, Try(c, i, request, e).done), g)
  {
    if request.Exchange? && Rotates(c, i.mem, request.token, request.client, request.given) {
      RotateCovers(disk, i, request.token, e, g, reg);
    }
  }

  lemma RotateCovers(disk: Tables, i: Instance, token: Token, e: Env, g: Grant, reg: Registry)
    requires Tidy(disk, reg) && Tidy(i.mem, reg) && FreshFor(disk, e) && Covers(Site(disk, i), g)
    requires token in i.mem.refresh && i.mem.refresh[token].grant != g
    ensures Covers(Site(disk, TryRotate(i, token, e).done), g)
  {
    var done := TryRotate(i, token, e).done;
    forall t | t in disk.used && disk.used[t].grant == g ensures t in done.mem.used || t in done.del.used {
      assert t != token;
    }
  }

  lemma HandleGoneIff(c: Config, x: Site, request: Request, e: Env, cleanupSaves: bool, g: Grant, reg: Registry)
    requires Tidy(x.disk, reg) && Tidy(x.inst.mem, reg) && FreshFor(x.disk, e) && FreshFor(x.inst.mem, e) && Gone(x.disk, g)
    requires var met := Met(x, request, e, cleanupSaves); e.saves ==> !MintsFor(c, met.inst.mem, request, e, g)
    ensures var met, after := Met(x, request, e, cleanupSaves), HandleAt(c, x, request, e, cleanupSaves);
      var writes := (!request.Revoke? && cleanupSaves && Expired(x.inst.mem, e.now) != NONE_DELETED)
                 || (e.saves && Try(c, met.inst, request, e).Save?);
      Gone(after.disk, g) <==> !(writes && !Gone(after.inst.mem, g))
  {
    var met := Met(x, request, e, cleanupSaves);
    CleanCovers(x, e.now, cleanupSaves, g, reg);
    CleanFresh(x, e.now, cleanupSaves, e);
    TryTidy(c, met.inst, request, e, reg);
    var a, next := Try(c, met.inst, request, e), NextRegistry(c, met.inst, request, e, reg);
    if a.Save? && e.saves {
      TryCovers(c, met.disk, met.inst, request, e, g, reg);
      if next != reg {
        var access: Record, refresh: Record :| next == Enter(reg, e, access, refresh);
        EnterKeeps(met.disk, reg, e, access, refresh);
      }
      SavedGoneIff(met.disk, a.done, e.now, g, next);
    }
  }

  lemma NextGoneIff(c: Config, s: System, p: Step, g: Grant, reg: Registry, earlier: int)
    requires p.who < |s.insts| && Sane(s, reg, earlier) && (p.event.Served? ==> NewToAll(s, p.event.env))
    requires Gone(s.disk, g) && !SavedMint(c, s, p, g)
    ensures Gone(Next(c, s, p).disk, g) <==> !(Writes(c, s, p) && !Gone(Next(c, s, p).insts[p.who].mem, g))
  {
    if p.event.Served? {
      var x, e := Site(s.disk, s.insts[p.who]), p.event.env;
      CleanMemory(x, e.now, p.cleanupSaves);
      HandleGoneIff(c, x, p.event.request, e, p.cleanupSaves, g, reg);
    }
  }

  /** A saved pair of the grant is there, in the store as in memory. */
  lemma MintIsThere(c: Config, s: System, p: Step, g: Grant)
    requires SavedMint(c, s, p, g) && NewToAll(s, p.event.env)
    ensures Writes(c, s, p) && !Gone(Next(c, s, p).disk, g) && !Gone(Next(c, s, p).insts[p.who].mem, g)
  {
    var x, e := Site(s.disk, s.insts[p.who]), p.event.env;
    CleanMemory(x, e.now, p.cleanupSaves);
    CleanFresh(x, e.now, p.cleanupSaves, e);
    var met := Met(x, p.event.request, e, p.cleanupSaves);
    MintsAccess(c, met.inst, p.event.request, e, g);
    SavedAccessIsThere(met.disk, Try(c, met.inst, p.event.request, e).done, e, g);
  }

  lemma MintsAccess(c: Config, i: Instance, request: Request, e: Env, g: Grant)
    requires MintsFor(c, i.mem, request, e, g)
    ensures var a := Try(c, i, request, e); a.Save? && e.access in a.done.mem.access && a.done.mem.access[e.access].grant == g
  {
  }

  lemma SavedAccessIsThere(disk: Tables, done: Instance, e: Env, g: Grant)
    requires e.access in done.mem.access && done.mem.access[e.access].grant == g
    ensures !Gone(Merge(disk, done.mem, done.del, e.now), g) && !Gone(done.mem, g)
  {
    var merged := Merge(disk, done.mem, done.del, e.now);
    assert e.access in merged.access && merged.access[e.access].grant == g;
  }

  /** An instance that still remembers something of the grant writes the store. */
  predicate BringsBack(c: Config, run: seq<System>, steps: seq<Step>, m: nat, g: Grant)
    requires m < |steps| < |run| && steps[m].who < |run[m].insts| == |run[m + 1].insts|
  {
    Writes(c, run[m], steps[m]) && Remembers(run[m + 1].insts[steps[m].who].mem, g)
  }

  predicate Remembers(s: Tables, g: Grant) {
    TokensOf(s.access, g) != {} || TokensOf(s.refresh, g) != {} || UsedOf(s.used, g) != {}
  }

  lemma RemembersIsNotGone(s: Tables, g: Grant)
    ensures Remembers(s, g) <==> !Gone(s, g)
  {
    if !Remembers(s, g) {
      forall t | t in s.access ensures s.access[t].grant != g { assert t !in TokensOf(s.access, g); }
      forall t | t in s.refresh ensures s.refresh[t].grant != g { assert t !in TokensOf(s.refresh, g); }
      forall t | t in s.used ensures s.used[t].grant != g { assert t !in UsedOf(s.used, g); }
    }
  }

  lemma NextStep(c: Config, run: seq<System>, steps: seq<Step>, m: nat)
    requires IsSystemRun(c, run, steps) && m < |steps|
    ensures NextAt(c, run, steps, m) && |run[m + 1].insts| == |run[m].insts|
  {
    assert NextAt(c, run, steps, m);
  }

  /** What the store has forgotten of a grant stays forgotten exactly until such an instance writes. */
  lemma {:induction false} GoneStaysIff(c: Config, run: seq<System>, steps: seq<Step>, i: nat, j: nat, g: Grant)
    requires IsSystemRun(c, run, steps) && i <= j <= |steps| && Gone(run[i].disk, g)
    requires forall m :: i <= m < j ==> steps[m].who < |run[m].insts| == |run[m + 1].insts|
    ensures (forall m :: i <= m <= j ==> Gone(run[m].disk, g)) <==> (forall m :: i <= m < j ==> !BringsBack(c, run, steps, m, g))
    decreases j - i
  {
    if i < j {
      NextStep(c, run, steps, i);
      var reg := RunSane(c, run, steps, i);
      if SavedMint(c, run[i], steps[i], g) {
        MintIsThere(c, run[i], steps[i], g);
      } else {
        NextGoneIff(c, run[i], steps[i], g, reg, if i == 0 then 0 else Time(steps, i - 1));
      }
      RemembersIsNotGone(run[i + 1].insts[steps[i].who].mem, g);
      assert Gone(run[i + 1].disk, g) <==> !BringsBack(c, run, steps, i, g);
      if Gone(run[i + 1].disk, g) { GoneStaysIff(c, run, steps, i + 1, j, g); }
    }
  }
}
