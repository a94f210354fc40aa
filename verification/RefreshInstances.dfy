/**
  Several server instances over one store. Each works on the tables it remembers and keeps lists of what it deleted since
  its last successful save; a save merges that into the store and is never read back until a restart. The module says,
  for every run, which tokens the store keeps and what an instance started from it accepts.
 */
module RefreshInstances {
  import opened Results
  import opened RefreshTokens
  import opened RefreshStore

  datatype Instance = Instance(mem: Tables, del: Deleted)

  /** One instance and the store. */
  datatype Site = Site(disk: Tables, inst: Instance)

  function Persist(x: Site, now: int, works: bool): Site {
    if works then Site(Merge(x.disk, x.inst.mem, x.inst.del, now), Instance(x.inst.mem, NONE_DELETED)) else x
  }

  // ---------- Cleaning up ----------

  function Expired(s: Tables, now: int): Deleted {
    Deleted(s.access.Keys - LiveRecords(s.access, now).Keys, s.refresh.Keys - LiveRecords(s.refresh, now).Keys,
            s.used.Keys - LiveUsed(s.used, now).Keys)
  }

  function Both(a: Deleted, b: Deleted): Deleted { Deleted(a.access + b.access, a.refresh + b.refresh, a.used + b.used) }

  function Expire(i: Instance, now: int): Instance { Instance(Live(i.mem, now), Both(i.del, Expired(i.mem, now))) }

  /** Expired records go; only if there were any is there a save, and nobody looks at its result. */
  function Clean(x: Site, now: int, works: bool): Site {
    if Expired(x.inst.mem, now) == NONE_DELETED then x else Persist(x.(inst := Expire(x.inst, now)), now, works)
  }

  // ---------- Requests ----------

  function TokensOf(m: map<Token, Record>, g: Grant): set<Token> { set t | t in m && m[t].grant == g }

  function UsedOf(m: map<Token, Used>, g: Grant): set<Token> { set t | t in m && m[t].grant == g }

  /** What a request leaves if its save works, and if it does not; or that there is nothing to save. */
  datatype Attempt = NoSave | Save(done: Instance, undone: Instance)

  function TryMint(i: Instance, client: string, scope: string, resource: string, e: Env): Attempt {
    Save(Instance(Mint(i.mem, client, scope, resource, e.grant, e),
                  i.del.(access := i.del.access - {e.access}, refresh := i.del.refresh - {e.refresh})),
         i.(del := i.del.(access := i.del.access + {e.access}, refresh := i.del.refresh + {e.refresh})))
  }

  /** When the save fails the token is unused again, but stays on the list of used marks to delete. */
  function TryRotate(i: Instance, token: Token, e: Env): Attempt
    requires token in i.mem.refresh
  {
    Save(Instance(Rotate(i.mem, token, e),
                  Deleted(i.del.access - {e.access}, i.del.refresh + {token} - {e.refresh}, i.del.used - {token})),
         i.(del := Deleted(i.del.access + {e.access}, i.del.refresh + {e.refresh} - {token}, i.del.used + {token})))
  }

  function TryDrop(i: Instance, g: Grant): Attempt {
    var mine := TokensOf(i.mem.refresh, g);
    if mine == {} then NoSave
    else
      Save(Instance(WithoutRefreshOf(i.mem, g), i.del.(refresh := i.del.refresh + mine)),
           i.(del := i.del.(refresh := i.del.refresh - mine)))
  }

  function TryRevoke(i: Instance, g: Grant): Attempt {
    var a, r, u := TokensOf(i.mem.access, g), TokensOf(i.mem.refresh, g), UsedOf(i.mem.used, g);
    Save(Instance(WithoutGrant(i.mem, g), Both(i.del, Deleted(a, r, u))),
         i.(del := Deleted(i.del.access - a, i.del.refresh - r, i.del.used - u)))
  }

  /** The exchange of an unused token that is allowed. */
  predicate Rotates(c: Config, s: Tables, token: Token, client: string, given: string) {
    && client != "" && token in s.refresh && s.refresh[token].client == client
    && ResourceOk(c, if given == "" then s.refresh[token].resource else given, s.refresh[token].resource)
  }

  /** The exchange of a used token that may not be replayed. */
  predicate Reuses(c: Config, s: Tables, token: Token, client: string, given: string, now: int) {
    && client != "" && !(token in s.refresh && s.refresh[token].client == client)
    && token in s.used && s.used[token].client == client && !Replays(c, s.used[token], given, now)
  }

  function Try(c: Config, i: Instance, request: Request, e: Env): Attempt {
    match request
    case Redeem(client, scope, resource) => TryMint(i, client, scope, resource, e)
    case Exchange(token, client, given) =>
      if Rotates(c, i.mem, token, client, given) then TryRotate(i, token, e)
      else if Reuses(c, i.mem, token, client, given, e.now) then TryDrop(i, i.mem.used[token].grant)
      else NoSave
    case Revoke(token, client) =>
      if client != "" && Owned(i.mem, token, client).Some? then TryRevoke(i, Owned(i.mem, token, client).value) else NoSave
  }

  function Settle(x: Site, a: Attempt, e: Env): Site {
    match a
    case NoSave => x
    case Save(done, undone) => if e.saves then Persist(x.(inst := done), e.now, true) else x.(inst := undone)
  }

  /** The instance as the request finds it; a revocation does not clean up. */
  function Met(x: Site, request: Request, e: Env, cleanupSaves: bool): Site {
    if request.Revoke? then x else Clean(x, e.now, cleanupSaves)
  }

  function HandleAt(c: Config, x: Site, request: Request, e: Env, cleanupSaves: bool): Site {
    var met := Met(x, request, e, cleanupSaves);
    Settle(met, Try(c, met.inst, request, e), e)
  }

  /** What an instance remembers depends on no other instance: it follows the machine of a single server. */
  lemma MemoryIsServed(c: Config, x: Site, request: Request, e: Env, cleanupSaves: bool)
    ensures HandleAt(c, x, request, e, cleanupSaves).inst.mem == Serve(c, x.inst.mem, request, e).tables
  {
    var met := Met(x, request, e, cleanupSaves);
    if !request.Revoke? {
      CleanMemory(x, e.now, cleanupSaves);
      if request.Exchange? && Reuses(c, met.inst.mem, request.token, request.client, request.given, e.now) {
        NothingToDrop(met.inst.mem, met.inst.mem.used[request.token].grant);
      }
    }
  }

  lemma CleanMemory(x: Site, now: int, works: bool)
    ensures Clean(x, now, works).inst.mem == Live(x.inst.mem, now)
  {
    if Expired(x.inst.mem, now) == NONE_DELETED { NothingExpired(x.inst.mem, now); }
  }

  lemma NothingExpired(s: Tables, now: int)
    requires Expired(s, now) == NONE_DELETED
    ensures Live(s, now) == s
  {
    forall t | t in s.access ensures t in LiveRecords(s.access, now) { assert t !in Expired(s, now).access; }
    forall t | t in s.refresh ensures t in LiveRecords(s.refresh, now) { assert t !in Expired(s, now).refresh; }
    forall t | t in s.used ensures t in LiveUsed(s.used, now) { assert t !in Expired(s, now).used; }
    assert LiveRecords(s.access, now) == s.access && LiveRecords(s.refresh, now) == s.refresh && LiveUsed(s.used, now) == s.used;
  }

  lemma NothingToDrop(s: Tables, g: Grant)
    ensures TokensOf(s.refresh, g) == {} ==> WithoutRefreshOf(s, g) == s
  {
    if TokensOf(s.refresh, g) == {} {
      assert forall t :: t in s.refresh ==> t !in TokensOf(s.refresh, g);
      assert WithoutRefreshOf(s, g).refresh == s.refresh;
    }
  }

  /** A request whose save fails is a clean-up and no more. */
  lemma FailedSaveChangesNothing(c: Config, x: Site, request: Request, e: Env, cleanupSaves: bool)
    requires !e.saves
    ensures var after, met := HandleAt(c, x, request, e, cleanupSaves), Met(x, request, e, cleanupSaves);
      after.disk == met.disk && after.inst.mem == met.inst.mem
      && met.inst.mem == if request.Revoke? then x.inst.mem else Live(x.inst.mem, e.now)
  {
    CleanMemory(x, e.now, cleanupSaves);
  }

  // ---------- Runs ----------

  datatype System = System(disk: Tables, insts: seq<Instance>)

  /** One event at one instance. */
  datatype Step = Step(who: nat, event: Event, cleanupSaves: bool)

  function Next(c: Config, s: System, p: Step): System
    requires p.who < |s.insts|
  {
    match p.event
    case Served(request, env) =>
      var x := HandleAt(c, Site(s.disk, s.insts[p.who]), request, env, p.cleanupSaves);
      System(x.disk, s.insts[p.who := x.inst])
    case Restarted(now) => s.(insts := s.insts[p.who := Instance(Live(s.disk, now), NONE_DELETED)])
  }

  /** The random values drawn are new to the store and to every instance. */
  ghost predicate NewToAll(s: System, e: Env) {
    && FreshFor(s.disk, e)
    && forall w :: 0 <= w < |s.insts| ==> NewTo(s.insts[w], e)
  }

  ghost predicate NewTo(i: Instance, e: Env) { FreshFor(i.mem, e) && e.refresh !in i.del.refresh && e.access !in i.del.access }

  ghost predicate NextAt(c: Config, run: seq<System>, steps: seq<Step>, k: nat)
    requires k < |steps| < |run|
  {
    && steps[k].who < |run[k].insts| && run[k + 1] == Next(c, run[k], steps[k])
    && (steps[k].event.Served? ==> NewToAll(run[k], steps[k].event.env))
  }

  /** Instances start with an empty store; restarting is how they learn of each other. */
  ghost predicate IsSystemRun(c: Config, run: seq<System>, steps: seq<Step>) {
    && |run| == |steps| + 1 && run[0].disk == EMPTY
    && (forall w :: 0 <= w < |run[0].insts| ==> run[0].insts[w] == Instance(EMPTY, NONE_DELETED))
    && (forall k :: 0 <= k < |steps| ==> NextAt(c, run, steps, k))
    && forall k, l :: 0 <= k <= l < |steps| ==> Time(steps, k) <= Time(steps, l)
  }

  function Time(steps: seq<Step>, k: nat): int
    requires k < |steps|
  {
    EventTime(steps[k].event)
  }

  // ---------- What all tables have in common ----------

  /** Records of one token differ nowhere. */
  datatype Registry = Registry(refresh: map<Token, Record>, access: map<Token, Record>)

  ghost predicate Registered(s: Tables, reg: Registry) {
    && (forall t :: t in s.access ==> t in reg.access && reg.access[t] == s.access[t])
    && (forall t :: t in s.refresh ==> t in reg.refresh && reg.refresh[t] == s.refresh[t])
    && (forall t :: t in s.used ==>
          t in reg.refresh && reg.refresh[t].grant == s.used[t].grant && reg.refresh[t].expiresAt == s.used[t].expiresAt)
  }

  ghost predicate Tidy(s: Tables, reg: Registry) { Registered(s, reg) && WellFormed(s) }

  /** No refresh token outlives one minted now. */
  ghost predicate AllYoung(reg: Registry, now: int) {
    forall t :: t in reg.refresh ==> reg.refresh[t].expiresAt <= now + REFRESH_TTL
  }

  ghost predicate Sane(s: System, reg: Registry, now: int) {
    && Tidy(s.disk, reg) && AllYoung(reg, now)
    && forall w :: 0 <= w < |s.insts| ==> Tidy(s.insts[w].mem, reg)
  }

  lemma MergeTidy(disk: Tables, mem: Tables, del: Deleted, now: int, reg: Registry)
    requires Registered(disk, reg) && Registered(mem, reg)
    ensures Tidy(Merge(disk, mem, del, now), reg)
  {
    MergeWellFormed(disk, mem, del, now);
  }

  /** The registry once the values of `e` are in use for these records. */
  function Enter(reg: Registry, e: Env, access: Record, refresh: Record): Registry {
    Registry(reg.refresh[e.refresh := refresh], reg.access[e.access := access])
  }

  lemma EnterKeeps(s: Tables, reg: Registry, e: Env, access: Record, refresh: Record)
    requires Tidy(s, reg) && FreshFor(s, e)
    ensures Tidy(s, Enter(reg, e, access, refresh))
  {
  }

  lemma CleanTidy(x: Site, now: int, works: bool, reg: Registry)
    requires Tidy(x.disk, reg) && Tidy(x.inst.mem, reg)
    ensures Tidy(Clean(x, now, works).disk, reg) && Tidy(Clean(x, now, works).inst.mem, reg)
  {
    CleanMemory(x, now, works);
    MergeTidy(x.disk, Live(x.inst.mem, now), Expire(x.inst, now).del, now, reg);
  }

  /** The registry after a request: a pair may have been minted. */
  function NextRegistry(c: Config, i: Instance, request: Request, e: Env, reg: Registry): Registry {
    match Try(c, i, request, e)
    case NoSave => reg
    case Save(done, _) =>
      if e.access in done.mem.access && e.refresh in done.mem.refresh then
        Enter(reg, e, done.mem.access[e.access], done.mem.refresh[e.refresh])
      else reg
  }

  lemma MintTidy(s: Tables, client: string, scope: string, resource: string, g: Grant, e: Env, reg: Registry)
    requires Tidy(s, reg) && FreshFor(s, e) && NoUnused(s, g)
    ensures var r, a := Record(client, scope, resource, g, e.now + REFRESH_TTL), Record(client, scope, resource, g, e.now + ACCESS_TTL);
      Tidy(Mint(s, client, scope, resource, g, e), Enter(reg, e, a, r))
  {
  }

  lemma RotateTidy(s: Tables, token: Token, e: Env, reg: Registry)
    requires Tidy(s, reg) && FreshFor(s, e) && token in s.refresh
    ensures var o := s.refresh[token];
      var r, a := Record(o.client, o.scope, o.resource, o.grant, e.now + REFRESH_TTL),
                  Record(o.client, o.scope, o.resource, o.grant, e.now + ACCESS_TTL);
      Tidy(Rotate(s, token, e), Enter(reg, e, a, r))
  {
    var o := s.refresh[token];
    var retired := Retire(s, token, e);
    forall t ensures !Successor(s, t, e.refresh) { }
    RetireTidy(s, token, e, reg);
    var r, a := Record(o.client, o.scope, o.resource, o.grant, e.now + REFRESH_TTL),
                Record(o.client, o.scope, o.resource, o.grant, e.now + ACCESS_TTL);
    assert Tidy(Mint(retired, o.client, o.scope, o.resource, o.grant, e), Enter(reg, e, a, r));
  }

  lemma RetireTidy(s: Tables, token: Token, e: Env, reg: Registry)
    requires Tidy(s, reg) && token in s.refresh
    ensures Tidy(Retire(s, token, e), reg) && NoUnused(Retire(s, token, e), s.refresh[token].grant)
  {
  }

  lemma TryTidy(c: Config, i: Instance, request: Request, e: Env, reg: Registry)
    requires Tidy(i.mem, reg) && FreshFor(i.mem, e)
    ensures var a, next := Try(c, i, request, e), NextRegistry(c, i, request, e, reg);
      && (next != reg ==> exists access: Record, refresh: Record ::
            next == Enter(reg, e, access, refresh) && refresh.expiresAt == e.now + REFRESH_TTL)
      && (a.Save? ==> Tidy(a.done.mem, next) && a.undone.mem == i.mem)
  {
    var a, next := Try(c, i, request, e), NextRegistry(c, i, request, e, reg);
    if request.Redeem? {
      MintTidy(i.mem, request.client, request.scope, request.resource, e.grant, e, reg);
    } else if request.Exchange? && Rotates(c, i.mem, request.token, request.client, request.given) {
      RotateTidy(i.mem, request.token, e, reg);
    }
    if a.Save? && e.access in a.done.mem.access && e.refresh in a.done.mem.refresh {
      EnterKeeps(i.mem, reg, e, a.done.mem.access[e.access], a.done.mem.refresh[e.refresh]);
      assert next == Enter(reg, e, a.done.mem.access[e.access], a.done.mem.refresh[e.refresh]);
    }
  }

  /** One request at one instance, seen with the store and with any other tables `other`. */
  lemma HandleTidy(c: Config, x: Site, request: Request, e: Env, cleanupSaves: bool, reg: Registry)
    requires Tidy(x.disk, reg) && Tidy(x.inst.mem, reg) && FreshFor(x.disk, e) && FreshFor(x.inst.mem, e)
    ensures var next, after := NextRegistry(c, Met(x, request, e, cleanupSaves).inst, request, e, reg),
                               HandleAt(c, x, request, e, cleanupSaves);
      && Tidy(after.disk, next) && Tidy(after.inst.mem, next)
      && (AllYoung(reg, e.now) ==> AllYoung(next, e.now))
      && forall other :: Tidy(other, reg) && FreshFor(other, e) ==> Tidy(other, next)
  {
    hide Tidy, FreshFor, Try, NextRegistry, Merge, Clean;
    var met := Met(x, request, e, cleanupSaves);
    CleanTidy(x, e.now, cleanupSaves, reg);
    CleanFresh(x, e.now, cleanupSaves, e);
    TryTidy(c, met.inst, request, e, reg);
    var a, next := Try(c, met.inst, request, e), NextRegistry(c, met.inst, request, e, reg);
    forall other | Tidy(other, reg) && FreshFor(other, e) ensures Tidy(other, next) {
      if next != reg {
        var access: Record, refresh: Record :| next == Enter(reg, e, access, refresh);
        EnterKeeps(other, reg, e, access, refresh);
      }
    }
    if a.Save? && e.saves { TidyIsRegistered(met.disk, a.done, e.now, next); }
  }

  lemma TidyIsRegistered(disk: Tables, i: Instance, now: int, reg: Registry)
    requires Tidy(disk, reg) && Tidy(i.mem, reg)
    ensures Tidy(Merge(disk, i.mem, i.del, now), reg)
  {
    MergeTidy(disk, i.mem, i.del, now, reg);
  }

  lemma FreshMerge(disk: Tables, mem: Tables, del: Deleted, now: int, e: Env)
    requires FreshFor(disk, e) && FreshFor(mem, e)
    ensures FreshFor(Merge(disk, mem, del, now), e)
  {
    var merged := Merge(disk, mem, del, now);
    forall t ensures !Successor(merged, t, e.refresh) { assert !Successor(disk, t, e.refresh) && !Successor(mem, t, e.refresh); }
  }

  lemma CleanFresh(x: Site, now: int, works: bool, e: Env)
    requires FreshFor(x.disk, e) && FreshFor(x.inst.mem, e)
    ensures FreshFor(Clean(x, now, works).disk, e) && FreshFor(Clean(x, now, works).inst.mem, e)
  {
    CleanMemory(x, now, works);
    forall t ensures !Successor(Live(x.inst.mem, now), t, e.refresh) { assert !Successor(x.inst.mem, t, e.refresh); }
    FreshMerge(x.disk, Live(x.inst.mem, now), Expire(x.inst, now).del, now, e);
  }

  lemma NextSane(c: Config, s: System, p: Step, reg: Registry) returns (next: Registry)
    requires p.who < |s.insts| && Sane(s, reg, EventTime(p.event)) && (p.event.Served? ==> NewToAll(s, p.event.env))
    ensures Sane(Next(c, s, p), next, EventTime(p.event))
  {
    match p.event
    case Served(request, e) =>
      var x := Site(s.disk, s.insts[p.who]);
      HandleTidy(c, x, request, e, p.cleanupSaves, reg);
      next := NextRegistry(c, Met(x, request, e, p.cleanupSaves).inst, request, e, reg);
    case Restarted(now) => next := reg;
  }

  /** In every run all records of one token agree, and every table has one unused token per grant. */
  lemma {:induction false} RunSane(c: Config, run: seq<System>, steps: seq<Step>, k: nat) returns (reg: Registry)
    requires IsSystemRun(c, run, steps) && k <= |steps|
    ensures Sane(run[k], reg, if k == 0 then 0 else Time(steps, k - 1))
  {
    if k == 0 {
      reg := Registry(map[], map[]);
    } else {
      var before := RunSane(c, run, steps, k - 1);
      assert NextAt(c, run, steps, k - 1);
      if k == 1 { before := Registry(map[], map[]); } else { assert Time(steps, k - 2) <= Time(steps, k - 1); }
      reg := NextSane(c, run[k - 1], steps[k - 1], before);
    }
  }

  // ---------- Random values that never repeat are new to all ----------

  function Events(steps: seq<Step>): seq<Event> { seq(|steps|, k requires 0 <= k < |steps| => steps[k].event) }

  ghost predicate AllDrawn(tokens: set<Token>, events: seq<Event>, k: nat) { forall t :: t in tokens ==> DrawnBefore(events, k, t) }

  ghost predicate InstanceDrawn(i: Instance, events: seq<Event>, k: nat) {
    Drawn(i.mem, events, k) && AllDrawn(i.del.access + i.del.refresh, events, k)
  }

  /** Everything anywhere in the system was drawn by an earlier event. */
  ghost predicate SystemDrawn(s: System, events: seq<Event>, k: nat) {
    Drawn(s.disk, events, k) && forall w :: 0 <= w < |s.insts| ==> InstanceDrawn(s.insts[w], events, k)
  }

  lemma SystemDrawnMeansNew(s: System, events: seq<Event>, k: nat)
    requires k < |events| && events[k].Served? && NoCollisions(events) && SystemDrawn(s, events, k)
    ensures NewToAll(s, events[k].env)
  {
    var e := events[k].env;
    DrawnMeansFresh(s.disk, events, k);
    forall w | 0 <= w < |s.insts| ensures NewTo(s.insts[w], e) {
      assert InstanceDrawn(s.insts[w], events, k);
      DrawnMeansFresh(s.insts[w].mem, events, k);
      NeverAgain(events, k, e.refresh, e.grant);
      NeverAgain(events, k, e.access, e.grant);
    }
  }

  lemma MergeDrawn(disk: Tables, mem: Tables, del: Deleted, now: int, events: seq<Event>, k: nat)
    requires Drawn(disk, events, k) && Drawn(mem, events, k)
    ensures Drawn(Merge(disk, mem, del, now), events, k)
  {
    var merged := Merge(disk, mem, del, now);
    forall t, n | Successor(merged, t, n) ensures DrawnBefore(events, k, n) { assert Successor(disk, t, n) || Successor(mem, t, n); }
  }

  lemma CleanDrawn(x: Site, now: int, works: bool, events: seq<Event>, k: nat)
    requires Drawn(x.disk, events, k) && InstanceDrawn(x.inst, events, k)
    ensures Drawn(Clean(x, now, works).disk, events, k) && InstanceDrawn(Clean(x, now, works).inst, events, k)
  {
    CleanMemory(x, now, works);
    FewerKeeps(Live(x.inst.mem, now), x.inst.mem, events, k);
    MergeDrawn(x.disk, Live(x.inst.mem, now), Expire(x.inst, now).del, now, events, k);
  }

  lemma TryDrawn(c: Config, i: Instance, request: Request, e: Env, events: seq<Event>, k: nat)
    requires k < |events| && events[k] == Served(request, e) && InstanceDrawn(i, events, k + 1)
    ensures var a := Try(c, i, request, e);
      a.Save? ==> InstanceDrawn(a.done, events, k + 1) && InstanceDrawn(a.undone, events, k + 1)
  {
    EventDraws(events, k);
    match request
    case Redeem(client, scope, resource) => MintDrawn(i.mem, client, scope, resource, e.grant, e, events, k);
    case Exchange(token, client, given) =>
      if Rotates(c, i.mem, token, client, given) {
        RotateDrawn(i.mem, token, e, events, k);
      } else if Reuses(c, i.mem, token, client, given, e.now) {
        FewerKeeps(WithoutRefreshOf(i.mem, i.mem.used[token].grant), i.mem, events, k + 1);
      }
    case Revoke(token, client) =>
      if Owned(i.mem, token, client).Some? {
        FewerKeeps(WithoutGrant(i.mem, Owned(i.mem, token, client).value), i.mem, events, k + 1);
      }
  }

  lemma HandleDrawn(c: Config, x: Site, request: Request, e: Env, cleanupSaves: bool, events: seq<Event>, k: nat)
    requires k < |events| && events[k] == Served(request, e)
    requires Drawn(x.disk, events, k + 1) && InstanceDrawn(x.inst, events, k + 1)
    ensures var after := HandleAt(c, x, request, e, cleanupSaves);
      Drawn(after.disk, events, k + 1) && InstanceDrawn(after.inst, events, k + 1)
  {
    hide Try, Merge, Clean, Drawn, Live;
    var met := Met(x, request, e, cleanupSaves);
    CleanDrawn(x, e.now, cleanupSaves, events, k + 1);
    TryDrawn(c, met.inst, request, e, events, k);
    var a := Try(c, met.inst, request, e);
    if a.Save? && e.saves { MergeDrawn(met.disk, a.done.mem, a.done.del, e.now, events, k + 1); }
  }

  lemma InstanceDrawnLater(i: Instance, events: seq<Event>, k: nat)
    requires InstanceDrawn(i, events, k)
    ensures InstanceDrawn(i, events, k + 1)
  {
    DrawnLater(i.mem, events, k);
    forall t | t in i.del.access + i.del.refresh ensures DrawnBefore(events, k + 1, t) { DrawnLonger(events, k, t); }
  }

  lemma NextDrawn(c: Config, s: System, p: Step, events: seq<Event>, k: nat)
    requires p.who < |s.insts| && k < |events| && events[k] == p.event && SystemDrawn(s, events, k)
    ensures SystemDrawn(Next(c, s, p), events, k + 1)
  {
    DrawnLater(s.disk, events, k);
    forall w | 0 <= w < |s.insts| ensures InstanceDrawn(s.insts[w], events, k + 1) { InstanceDrawnLater(s.insts[w], events, k); }
    match p.event
    case Served(request, e) => HandleDrawn(c, Site(s.disk, s.insts[p.who]), request, e, p.cleanupSaves, events, k);
    case Restarted(now) => FewerKeeps(Live(s.disk, now), s.disk, events, k + 1);
  }

  lemma SystemRunSnoc(c: Config, run: seq<System>, steps: seq<Step>, k: nat, next: System)
    requires k < |steps| && IsSystemRun(c, run, steps[..k]) && steps[k].who < |run[k].insts|
    requires next == Next(c, run[k], steps[k]) && (steps[k].event.Served? ==> NewToAll(run[k], steps[k].event.env))
    requires forall a, b :: 0 <= a <= b < |steps| ==> Time(steps, a) <= Time(steps, b)
    ensures IsSystemRun(c, run + [next], steps[..k + 1])
  {
    var longer, first := run + [next], steps[..k + 1];
    forall m | 0 <= m < |first| ensures NextAt(c, longer, first, m) {
      if m < k { assert NextAt(c, run, steps[..k], m); }
    }
    forall a, b | 0 <= a <= b < |first| ensures Time(first, a) <= Time(first, b) { assert Time(steps, a) <= Time(steps, b); }
  }

  /** Whatever happens in whatever order, as long as random values do not repeat and time does not run back, is a run. */
  lemma {:induction false} RunAlong(c: Config, n: nat, steps: seq<Step>, k: nat) returns (run: seq<System>)
    requires NoCollisions(Events(steps)) && k <= |steps| && forall m :: 0 <= m < |steps| ==> steps[m].who < n
    requires forall a, b :: 0 <= a <= b < |steps| ==> Time(steps, a) <= Time(steps, b)
    ensures IsSystemRun(c, run, steps[..k]) && |run| == k + 1 && |run[0].insts| == |run[k].insts| == n
    ensures SystemDrawn(run[k], Events(steps), k)
  {
    if k == 0 {
      run := [System(EMPTY, seq(n, _ => Instance(EMPTY, NONE_DELETED)))];
    } else {
      hide Next, SystemDrawn, NoCollisions, NewToAll, IsSystemRun;
      run := RunAlong(c, n, steps, k - 1);
      if steps[k - 1].event.Served? { SystemDrawnMeansNew(run[k - 1], Events(steps), k - 1); }
      NextDrawn(c, run[k - 1], steps[k - 1], Events(steps), k - 1);
      SameCrew(c, run[k - 1], steps[k - 1]);
      SystemRunSnoc(c, run, steps, k - 1, Next(c, run[k - 1], steps[k - 1]));
      run := run + [Next(c, run[k - 1], steps[k - 1])];
    }
  }

  lemma SameCrew(c: Config, s: System, p: Step)
    requires p.who < |s.insts|
    ensures |Next(c, s, p).insts| == |s.insts|
  {
  }

  // ---------- A single instance ----------

  /** What a restart at time `t` or later would load is what is remembered. */
  ghost predicate Synced(x: Site, t: int) { Live(x.disk, t) == Live(x.inst.mem, t) }

  lemma LiveLater(s: Tables, t: int, later: int)
    requires t <= later
    ensures Live(Live(s, t), later) == Live(s, later)
  {
  }

  lemma SyncedLater(x: Site, t: int, later: int)
    requires t <= later && Synced(x, t)
    ensures Synced(x, later)
  {
    LiveLater(x.disk, t, later);
    LiveLater(x.inst.mem, t, later);
  }

  lemma CleanSynced(x: Site, now: int, works: bool)
    requires Synced(x, now) && WellFormed(x.inst.mem)
    ensures Synced(Clean(x, now, works), now) && Clean(x, now, works).inst.mem == Live(x.inst.mem, now)
  {
    CleanMemory(x, now, works);
    LiveLater(x.inst.mem, now, now);
    MergeIsMemory(x.disk, Live(x.inst.mem, now), Expire(x.inst, now).del, now);
  }

  /** Whatever a request takes out of the tables it puts on the lists. */
  lemma TryAccounted(c: Config, i: Instance, request: Request, e: Env)
    requires FreshFor(i.mem, e) && Try(c, i, request, e).Save?
    ensures Accounted(i.mem, Try(c, i, request, e).done.mem, Try(c, i, request, e).done.del)
  {
  }

  lemma SavedSynced(x: Site, done: Instance, now: int)
    requires Synced(x, now) && Accounted(x.inst.mem, done.mem, done.del) && WellFormed(done.mem)
    ensures Synced(Persist(x.(inst := done), now, true), now)
  {
    assert Accounted(Live(x.disk, now), done.mem, done.del);
    MergeIsMemory(x.disk, done.mem, done.del, now);
  }

  lemma HandleSynced(c: Config, x: Site, request: Request, e: Env, cleanupSaves: bool, reg: Registry)
    requires Synced(x, e.now) && Tidy(x.inst.mem, reg) && FreshFor(x.inst.mem, e) && FreshFor(x.disk, e)
    ensures Synced(HandleAt(c, x, request, e, cleanupSaves), e.now)
  {
    hide Try, Clean, Merge, Tidy, FreshFor, Live, Accounted;
    var met := Met(x, request, e, cleanupSaves);
    TidyMemory(x.inst.mem, reg, e.now);
    CleanSynced(x, e.now, cleanupSaves);
    CleanFresh(x, e.now, cleanupSaves, e);
    var a := Try(c, met.inst, request, e);
    TryTidy(c, met.inst, request, e, reg);
    if a.Save? {
      TryAccounted(c, met.inst, request, e);
      TidyMemory(a.done.mem, NextRegistry(c, met.inst, request, e, reg), e.now);
      if e.saves { SavedSynced(met, a.done, e.now); }
    }
  }

  lemma TidyMemory(s: Tables, reg: Registry, now: int)
    requires Tidy(s, reg)
    ensures WellFormed(s) && Tidy(Live(s, now), reg)
  {
  }

  function Memories(run: seq<System>): seq<Tables>
    requires forall k :: 0 <= k < |run| ==> |run[k].insts| > 0
  {
    seq(|run|, k requires 0 <= k < |run| => run[k].insts[0].mem)
  }

  lemma {:induction false} SoloAlong(c: Config, run: seq<System>, steps: seq<Step>, k: nat)
    requires IsSystemRun(c, run, steps) && |run[0].insts| == 1 && k <= |steps|
    ensures |run[k].insts| == 1 && (k > 0 ==> |run[k - 1].insts| == 1)
    ensures if k == 0 then run[0].disk == EMPTY == run[0].insts[0].mem
            else && Synced(Site(run[k].disk, run[k].insts[0]), Time(steps, k - 1))
                 && run[k].insts[0].mem == After(c, run[k - 1].insts[0].mem, steps[k - 1].event)
  {
    if k > 0 {
      SoloAlong(c, run, steps, k - 1);
      assert NextAt(c, run, steps, k - 1);
      var s, p := run[k - 1], steps[k - 1];
      var x := Site(s.disk, s.insts[0]);
      if k > 1 { assert Time(steps, k - 2) <= Time(steps, k - 1); SyncedLater(x, Time(steps, k - 2), Time(steps, k - 1)); }
      match p.event
      case Served(request, e) =>
        MemoryIsServed(c, x, request, e, p.cleanupSaves);
        var reg := RunSane(c, run, steps, k - 1);
        HandleSynced(c, x, request, e, p.cleanupSaves, reg);
      case Restarted(now) => LiveLater(s.disk, now, now);
    }
  }

  /** With one instance the system is the machine of a single server, restarts included. */
  lemma SoloIsRun(c: Config, run: seq<System>, steps: seq<Step>)
    requires IsSystemRun(c, run, steps) && |run[0].insts| == 1
    ensures forall k :: 0 <= k < |run| ==> |run[k].insts| == 1
    ensures IsRun(c, Memories(run), Events(steps))
  {
    forall k | 0 <= k < |run| ensures |run[k].insts| == 1 { SoloAlong(c, run, steps, k); }
    forall k | 0 <= k < |steps| ensures StepAt(c, Memories(run), Events(steps), k) { SoloAlong(c, run, steps, k + 1); }
  }
}
