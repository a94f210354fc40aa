/**
  The server object: token tables changed in place, an index of the active refresh token of each grant, deletion lists
  for the next save, and roll-back when a save fails. Each operation is one step of an instance in RefreshInstances,
  whoever else writes the store, and its memory one step of the machine in RefreshTokens.
 */
module AuthorizationServer {
  import opened Results
  import opened RefreshTokens
  import opened RefreshStore
  import opened RefreshInstances

  /** The index and the refresh table say the same. */
  ghost predicate Indexed(refresh: map<Token, Record>, active: map<Grant, Token>) {
    && (forall t :: t in refresh ==> refresh[t].grant in active && active[refresh[t].grant] == t)
    && (forall g :: g in active ==> active[g] in refresh && refresh[active[g]].grant == g)
  }

  ghost predicate NoneOf(refresh: map<Token, Record>, g: Grant) { forall t :: t in refresh ==> refresh[t].grant != g }

  lemma NoneYet(all: map<Token, Record>, some: map<Token, Record>, t: Token)
    requires OnePerGrant(all) && t in all && t !in some && forall u :: u in some ==> u in all && some[u] == all[u]
    ensures NoneOf(some, all[t].grant)
  {
    forall u | u in some ensures some[u].grant != all[t].grant { assert all[u] == some[u]; }
  }

  lemma LoadStep(m: map<Token, Record>, records: map<Token, Record>, left: set<Token>, t: Token)
    requires t in left && left <= records.Keys
    ensures (m + (records - left))[t := records[t]] == m + (records - (left - {t}))
  {
  }

  lemma ActiveIsTheOnlyOne(s: Tables, active: map<Grant, Token>, g: Grant)
    requires Indexed(s.refresh, active)
    ensures g !in active ==> TokensOf(s.refresh, g) == {}
    ensures g in active ==> TokensOf(s.refresh, g) == {active[g]} && s.refresh - {active[g]} == WithoutRefreshOf(s, g).refresh
  {
  }

  lemma PutBack<V>(before: map<Token, V>, after: map<Token, V>)
    requires forall t :: t in after ==> t in before && after[t] == before[t]
    ensures after + (before - after.Keys) == before
  {
  }

  function Marked(r: Record): Used { Used(r.client, r.resource, r.grant, r.expiresAt, None) }

  /** The source marks the token used, mints, and then adds the answer: together one rotation. */
  lemma RotationInSteps(s: Tables, token: Token, e: Env)
    requires token in s.refresh
    ensures var r := s.refresh[token];
      var marked := s.(refresh := s.refresh - {token}, used := s.used[token := Marked(r)]);
      var minted := Mint(marked, r.client, r.scope, r.resource, r.grant, e);
      minted.(used := minted.used[token := Retired(r, e)]) == Rotate(s, token, e)
  {
  }

  lemma MarkedIsFresh(s: Tables, token: Token, e: Env)
    requires token in s.refresh && FreshFor(s, e)
    ensures FreshFor(s.(refresh := s.refresh - {token}, used := s.used[token := Marked(s.refresh[token])]), e)
  {
    var marked := s.(refresh := s.refresh - {token}, used := s.used[token := Marked(s.refresh[token])]);
    forall u ensures !Successor(marked, u, e.refresh) { assert !Successor(s, u, e.refresh); }
  }

  lemma MintUndone(s: Tables, client: string, scope: string, resource: string, grant: Grant, e: Env)
    requires FreshFor(s, e)
    ensures var minted := Mint(s, client, scope, resource, grant, e);
      Tables(minted.access - {e.access}, minted.refresh - {e.refresh}, minted.used) == s
  {
  }

  /** Taking the pair, the used mark and the deletion back gives the tables from before. */
  lemma RotationUndone(s: Tables, token: Token, e: Env)
    requires WellFormed(s) && token in s.refresh && FreshFor(s, e)
    ensures var after := Rotate(s, token, e);
      && after.access - {e.access} == s.access
      && (after.refresh - {e.refresh})[token := s.refresh[token]] == s.refresh
      && after.used - {token} == s.used
  {
  }

  lemma RemovedGrant(s: Tables, active: map<Grant, Token>, g: Grant, a: set<Token>, r: set<Token>, u: set<Token>)
    requires Indexed(s.refresh, active)
    requires a == (set t | t in s.access && s.access[t].grant == g) && r == (set t | t in s.refresh && s.refresh[t].grant == g)
    requires u == (set t | t in s.used && s.used[t].grant == g)
    ensures Tables(s.access - a, s.refresh - r, s.used - u) == WithoutGrant(s, g)
    ensures Indexed(s.refresh - r, active - {g})
  {
  }

  lemma LoadEnds(m: map<Token, Record>, records: map<Token, Record>)
    ensures m + (records - records.Keys) == m && records - {} == records
  {
  }

  lemma ListStep(list: set<Token>, all: set<Token>, left: set<Token>, t: Token)
    requires t in left && left <= all
    ensures list - (all - left) - {t} == list - (all - (left - {t}))
  {
  }

  /** The deletion lists after a rotation was taken back. */
  lemma ListsUndone(del: Deleted, token: Token, e: Env)
    ensures del.access - {e.access} + {e.access} == del.access + {e.access}
    ensures token != e.refresh ==>
      del.refresh + {token} - {e.refresh} + {e.refresh} - {token} == del.refresh + {e.refresh} - {token}
    ensures del.used - {token} + {token} == del.used + {token}
  {
  }

  /** The snapshot has exactly the tokens that were put on the lists. */
  lemma ListsRestored(i: Instance, g: Grant, a: set<Token>, r: set<Token>, u: set<Token>)
    requires var gone := WithoutGrant(i.mem, g);
      a == i.mem.access.Keys - gone.access.Keys && r == i.mem.refresh.Keys - gone.refresh.Keys && u == i.mem.used.Keys - gone.used.Keys
    ensures a == TokensOf(i.mem.access, g) && r == TokensOf(i.mem.refresh, g) && u == UsedOf(i.mem.used, g)
    ensures i.del.access + a - a == i.del.access - a && i.del.refresh + r - r == i.del.refresh - r && i.del.used + u - u == i.del.used - u
  {
  }

  lemma RevokeIgnoresCleanup(c: Config, x: Site, token: Token, client: string, e: Env, cleanupSaves: bool)
    ensures HandleAt(c, x, Request.Revoke(token, client), e, cleanupSaves) == HandleAt(c, x, Request.Revoke(token, client), e, false)
  {
  }

  lemma CleanMemoryFresh(x: Site, e: Env, works: bool)
    requires FreshFor(x.inst.mem, e)
    ensures var after := Clean(x, e.now, works).inst.mem; after == Live(x.inst.mem, e.now) && FreshFor(after, e)
  {
    CleanMemory(x, e.now, works);
    forall u ensures !Successor(Live(x.inst.mem, e.now), u, e.refresh) { assert !Successor(x.inst.mem, u, e.refresh); }
  }

  class Server {
    const config: Config
    const store: Store
    var access: map<Token, Record>
    var refresh: map<Token, Record>
    var used: map<Token, Used>
    var active: map<Grant, Token>
    var deleted: Deleted

    ghost function Memory(): Tables
      reads this
    {
      Tables(access, refresh, used)
    }

    ghost predicate Valid()
      reads this
    {
      Indexed(refresh, active) && refresh.Keys !! used.Keys
    }

    ghost function Here(): Instance
      reads this
    {
      Instance(Memory(), deleted)
    }

    /** The server and its store. */
    ghost function Spot(): Site
      reads this, store
    {
      Site(store.disk, Here())
    }

    /** Loading: every record goes through its setter. */
    constructor (config: Config, store: Store, now: int)
      requires WellFormed(Live(store.disk, now))
      ensures this.config == config && this.store == store && store.disk == old(store.disk)
      ensures Valid() && Memory() == Live(store.disk, now) && deleted == NONE_DELETED
    {
      this.config, this.store := config, store;
      access, used, deleted := LiveRecords(store.disk.access, now), LiveUsed(store.disk.used, now), NONE_DELETED;
      refresh, active := map[], map[];
      new;
      LoadRefresh(LiveRecords(store.disk.refresh, now));
    }

    /** Records not in `left` are loaded on top of `start`. */
    ghost predicate Loaded(start: map<Token, Record>, records: map<Token, Record>, left: set<Token>)
      reads this
    {
      refresh == start + (records - left) && Indexed(refresh, active)
    }

    method LoadOne(t: Token, records: map<Token, Record>, ghost start: map<Token, Record>, ghost left: set<Token>)
      requires OnePerGrant(start + records) && records.Keys !! start.Keys && left <= records.Keys
      requires t in left && Loaded(start, records, left)
      modifies this`refresh, this`active, this`deleted
      ensures Loaded(start, records, left - {t})
      ensures deleted == old(deleted).(refresh := old(deleted).refresh - {t})
    {
      NoneYet(start + records, refresh, t);
      LoadStep(start, records, left, t);
      SetRefresh(t, records[t]);
    }

    method LoadRefresh(records: map<Token, Record>)
      requires OnePerGrant(refresh + records) && records.Keys !! refresh.Keys && Indexed(refresh, active)
      modifies this`refresh, this`active, this`deleted
      ensures refresh == old(refresh) + records && Indexed(refresh, active)
      ensures deleted == old(deleted).(refresh := old(deleted).refresh - records.Keys)
    {
      hide Indexed, OnePerGrant;
      ghost var start, lists := refresh, deleted;
      var left := records.Keys;
      LoadEnds(start, records);
      while left != {}
        invariant left <= records.Keys && Loaded(start, records, left)
        invariant deleted == lists.(refresh := lists.refresh - (records.Keys - left))
        decreases |left|
      {
        var t :| t in left;
        ListStep(lists.refresh, records.Keys, left, t);
        LoadOne(t, records, start, left);
        left := left - {t};
      }
    }

    method SetAccess(t: Token, r: Record)
      modifies this`access, this`deleted
      ensures access == old(access)[t := r] && deleted == old(deleted).(access := old(deleted).access - {t})
    {
      deleted := deleted.(access := deleted.access - {t});
      access := access[t := r];
    }

    method DeleteAccess(t: Token)
      modifies this`access, this`deleted
      ensures access == old(access) - {t}
      ensures deleted == if t in old(access) then old(deleted).(access := old(deleted).access + {t}) else old(deleted)
    {
      if t in access { deleted := deleted.(access := deleted.access + {t}); }
      access := access - {t};
    }

    method SetRefresh(t: Token, r: Record)
      modifies this`refresh, this`active, this`deleted
      ensures refresh == old(refresh)[t := r] && active == old(active)[r.grant := t]
      ensures old(Indexed(refresh, active) && t !in refresh && NoneOf(refresh, r.grant)) ==> Indexed(refresh, active)
      ensures deleted == old(deleted).(refresh := old(deleted).refresh - {t})
    {
      deleted := deleted.(refresh := deleted.refresh - {t});
      refresh := refresh[t := r];
      active := active[r.grant := t];
    }

    method DeleteRefresh(t: Token)
      modifies this`refresh, this`active, this`deleted
      ensures refresh == old(refresh) - {t}
      ensures old(Indexed(refresh, active)) ==> Indexed(refresh, active)
      ensures deleted == if t in old(refresh) then old(deleted).(refresh := old(deleted).refresh + {t}) else old(deleted)
    {
      if t in refresh {
        deleted := deleted.(refresh := deleted.refresh + {t});
        var g := refresh[t].grant;
        if g in active && active[g] == t { active := active - {g}; }
      }
      refresh := refresh - {t};
    }

    method SetUsed(t: Token, u: Used)
      modifies this`used, this`deleted
      ensures used == old(used)[t := u] && deleted == old(deleted).(used := old(deleted).used - {t})
    {
      deleted := deleted.(used := deleted.used - {t});
      used := used[t := u];
    }

    method DeleteUsed(t: Token)
      modifies this`used, this`deleted
      ensures used == old(used) - {t}
      ensures deleted == if t in old(used) then old(deleted).(used := old(deleted).used + {t}) else old(deleted)
    {
      if t in used { deleted := deleted.(used := deleted.used + {t}); }
      used := used - {t};
    }

    /** Saving merges into whatever the store holds by now. */
    method Save(now: int, works: bool) returns (ok: bool)
      modifies this`deleted, store
      ensures ok == works && Spot() == Persist(old(Spot()), now, works)
    {
      ok := store.Save(Tables(access, refresh, used), deleted, now, works);
      if ok { deleted := NONE_DELETED; }
    }

    /** Expired records go; a failing save is ignored here. */
    method Cleanup(now: int, works: bool)
      requires Valid()
      modifies this, store
      ensures Valid() && Spot() == Clean(old(Spot()), now, works)
    {
      if Expired(Tables(access, refresh, used), now) == NONE_DELETED { return; }
      var gone := Expired(Tables(access, refresh, used), now);
      deleted := Both(deleted, gone);
      access, refresh, used := LiveRecords(access, now), LiveRecords(refresh, now), LiveUsed(used, now);
      active := map g | g in active && active[g] !in gone.refresh :: active[g];
      var ok := Save(now, works);
    }

    // ---------- Operations ----------

    method AddPair(client: string, scope: string, resource: string, grant: Grant, e: Env)
      requires Valid() && FreshFor(Memory(), e) && (forall t :: t in refresh ==> refresh[t].grant != grant)
      modifies this`access, this`refresh, this`active, this`deleted
      ensures Valid() && Memory() == Mint(old(Memory()), client, scope, resource, grant, e)
      ensures deleted == old(deleted).(access := old(deleted).access - {e.access}, refresh := old(deleted).refresh - {e.refresh})
    {
      SetAccess(e.access, Record(client, scope, resource, grant, e.now + ACCESS_TTL));
      SetRefresh(e.refresh, Record(client, scope, resource, grant, e.now + REFRESH_TTL));
    }

    /** Takes a pair out of the tables again. */
    method Withdraw(a: Token, r: Token)
      requires Valid() && a in access && r in refresh
      modifies this`access, this`refresh, this`active, this`deleted
      ensures Valid() && access == old(access) - {a} && refresh == old(refresh) - {r}
      ensures deleted == old(deleted).(access := old(deleted).access + {a}, refresh := old(deleted).refresh + {r})
    {
      DeleteAccess(a);
      DeleteRefresh(r);
    }

    /** Mints an access and a refresh token of a fresh grant and saves them, or mints nothing. */
    method Issue(client: string, scope: string, resource: string, e: Env) returns (issued: Option<Body>)
      requires Valid() && FreshFor(Memory(), e)
      modifies this, store
      ensures Valid() && issued == (if e.saves then Some(NewBody(e, scope)) else None)
      ensures Spot() == Settle(old(Spot()), TryMint(old(Here()), client, scope, resource, e), e)
    {
      ghost var before := Here();
      MintUndone(before.mem, client, scope, resource, e.grant, e);
      AddPair(client, scope, resource, e.grant, e);
      var ok := Save(e.now, e.saves);
      if !ok {
        Withdraw(e.access, e.refresh);
        assert deleted == before.del.(access := before.del.access + {e.access}, refresh := before.del.refresh + {e.refresh});
        return None;
      }
      return Some(NewBody(e, scope));
    }

    /** The token leaves the unused ones; its answer is not known yet. */
    method MarkUsed(token: Token, ghost e: Env)
      requires Valid() && token in refresh && FreshFor(Memory(), e)
      modifies this`refresh, this`active, this`used, this`deleted
      ensures Valid() && FreshFor(Memory(), e)
      ensures refresh == old(refresh) - {token} && used == old(used)[token := Marked(old(refresh)[token])]
      ensures forall t :: t in refresh ==> refresh[t].grant != old(refresh)[token].grant
      ensures deleted == old(deleted).(refresh := old(deleted).refresh + {token}, used := old(deleted).used - {token})
    {
      MarkedIsFresh(Memory(), token, e);
      var r := refresh[token];
      DeleteRefresh(token);
      SetUsed(token, Marked(r));
    }

    /** The unused token is exchanged in memory: retired, its pair minted, and the answer stored with it. */
    method RetireAndIssue(token: Token, e: Env) returns (body: Body)
      requires Valid() && token in refresh && FreshFor(Memory(), e)
      modifies this`access, this`refresh, this`used, this`active, this`deleted
      ensures Valid() && Here() == TryRotate(old(Here()), token, e).done && body == NewBody(e, old(refresh)[token].scope)
    {
      ghost var before := Memory();
      var r := refresh[token];
      RotationInSteps(before, token, e);
      MarkUsed(token, e);
      AddPair(r.client, r.scope, r.resource, r.grant, e);
      body := NewBody(e, r.scope);
      SetUsed(token, Used(r.client, r.resource, r.grant, r.expiresAt, Some(Replay(e.now + REPLAY_GRACE, body))));
    }

    /** Puts memory back as it was before the rotation; the used mark stays on the deletion list. */
    method UndoRotation(token: Token, r: Record, body: Body, ghost before: Instance, ghost e: Env)
      requires Valid() && token in before.mem.refresh && before.mem.refresh[token] == r && WellFormed(before.mem)
      requires FreshFor(before.mem, e) && Here() == TryRotate(before, token, e).done && body == NewBody(e, r.scope)
      modifies this`access, this`refresh, this`used, this`active, this`deleted
      ensures Valid() && Here() == TryRotate(before, token, e).undone
    {
      RotationUndone(before.mem, token, e);
      Withdraw(body.access, body.refresh);
      DeleteUsed(token);
      SetRefresh(token, r);
      ListsUndone(before.del, token, e);
    }

    method RotateToken(token: Token, e: Env) returns (response: Response)
      requires Valid() && token in refresh && FreshFor(Memory(), e)
      modifies this, store
      ensures Valid() && Spot() == Settle(old(Spot()), TryRotate(old(Here()), token, e), e)
      ensures response == if e.saves then Granted(NewBody(e, old(refresh)[token].scope)) else ServerError
    {
      ghost var before := Here();
      var r := refresh[token];
      var body := RetireAndIssue(token, e);
      var ok := Save(e.now, e.saves);
      if !ok {
        UndoRotation(token, r, body, before, e);
        return ServerError;
      }
      return Granted(body);
    }

    /** Reuse was detected: the active refresh token of the grant goes, unless that cannot be saved. */
    method DropActive(g: Grant, e: Env)
      requires Valid()
      modifies this, store
      ensures Valid() && Spot() == Settle(old(Spot()), TryDrop(old(Here()), g), e)
    {
      ghost var before := Here();
      ActiveIsTheOnlyOne(before.mem, active, g);
      if g in active {
        var t, r := active[g], refresh[active[g]];
        DeleteRefresh(t);
        var ok := Save(e.now, e.saves);
        if !ok {
          SetRefresh(t, r);
          assert Memory() == before.mem && deleted.refresh == before.del.refresh - {t};
        }
      }
    }

    /** The token is not an unused token of this client: replay, reuse, or unknown. */
    method AnswerUsed(token: Token, client: string, given: string, e: Env) returns (response: Response)
      requires Valid() && (client == "" || token !in refresh || refresh[token].client != client)
      modifies this, store
      ensures Valid() && Spot() == Settle(old(Spot()), Try(config, old(Here()), Request.Exchange(token, client, given), e), e)
      ensures response == ServeExchange(config, old(Memory()), token, client, given, e).response
    {
      if client != "" && token in used && used[token].client == client {
        var u := used[token];
        if Replays(config, u, given, e.now) { return Granted(u.replay.value.body); }
        DropActive(u.grant, e);
      }
      return InvalidGrant;
    }

    method Exchange(token: Token, client: string, given: string, e: Env, cleanupSaves: bool) returns (response: Response)
      requires Valid() && FreshFor(Memory(), e)
      modifies this, store
      ensures Valid() && Spot() == HandleAt(config, old(Spot()), Request.Exchange(token, client, given), e, cleanupSaves)
      ensures response == Serve(config, old(Memory()), Request.Exchange(token, client, given), e).response
    {
      CleanMemoryFresh(Spot(), e, cleanupSaves);
      Cleanup(e.now, cleanupSaves);
      if client == "" || token !in refresh || refresh[token].client != client {
        response := AnswerUsed(token, client, given, e);
        return;
      }
      var r := refresh[token];
      if !ResourceOk(config, if given == "" then r.resource else given, r.resource) { return InvalidTarget; }
      response := RotateToken(token, e);
    }

    method Redeem(client: string, scope: string, resource: string, e: Env, cleanupSaves: bool) returns (response: Response)
      requires Valid() && FreshFor(Memory(), e)
      modifies this, store
      ensures Valid() && Spot() == HandleAt(config, old(Spot()), Request.Redeem(client, scope, resource), e, cleanupSaves)
      ensures response == Serve(config, old(Memory()), Request.Redeem(client, scope, resource), e).response
    {
      CleanMemoryFresh(Spot(), e, cleanupSaves);
      Cleanup(e.now, cleanupSaves);
      var issued := Issue(client, scope, resource, e);
      return if issued.Some? then Granted(issued.value) else ServerError;
    }

    /** Deletes every record of the grant. */
    method RevokeGrant(g: Grant)
      requires Valid()
      modifies this`access, this`refresh, this`used, this`active, this`deleted
      ensures Valid() && Here() == TryRevoke(old(Here()), g).done
    {
      var a, r, u := TokensOf(access, g), TokensOf(refresh, g), UsedOf(used, g);
      RemovedGrant(Memory(), active, g, a, r, u);
      deleted := Deleted(deleted.access + a, deleted.refresh + r, deleted.used + u);
      access, refresh, used, active := access - a, refresh - r, used - u, active - {g};
    }

    /** Puts the snapshot taken before the revocation back. */
    method RestoreGrant(a: map<Token, Record>, r: map<Token, Record>, u: map<Token, Used>, g: Grant, ghost before: Instance)
      requires Valid() && WellFormed(before.mem) && Here() == TryRevoke(before, g).done
      requires a == before.mem.access - access.Keys && r == before.mem.refresh - refresh.Keys && u == before.mem.used - used.Keys
      modifies this`access, this`refresh, this`used, this`active, this`deleted
      ensures Valid() && Here() == TryRevoke(before, g).undone
    {
      PutBack(before.mem.access, access);
      PutBack(before.mem.refresh, refresh);
      PutBack(before.mem.used, used);
      ListsRestored(before, g, a.Keys, r.Keys, u.Keys);
      deleted := deleted.(access := deleted.access - a.Keys, used := deleted.used - u.Keys);
      access, used := access + a, used + u;
      LoadRefresh(r);
    }

    method Revoke(token: Token, client: string, e: Env) returns (response: Response)
      requires Valid()
      modifies this, store
      ensures Valid() && Spot() == HandleAt(config, old(Spot()), Request.Revoke(token, client), e, false)
      ensures response == Serve(config, old(Memory()), Request.Revoke(token, client), e).response
    {
      if client == "" { return InvalidClient; }
      var owned := Owned(Tables(access, refresh, used), token, client);
      if owned.None? { return Acknowledged; }
      ghost var before := Here();
      var access0, refresh0, used0 := access, refresh, used;
      RevokeGrant(owned.value);
      var ok := Save(e.now, e.saves);
      if !ok {
        RestoreGrant(access0 - access.Keys, refresh0 - refresh.Keys, used0 - used.Keys, owned.value, before);
        return ServerError;
      }
      return Acknowledged;
    }

    method Handle(request: Request, e: Env, cleanupSaves: bool) returns (response: Response)
      requires Valid() && FreshFor(Memory(), e)
      modifies this, store
      ensures Valid() && Spot() == HandleAt(config, old(Spot()), request, e, cleanupSaves)
      ensures Outcome(Memory(), response) == Serve(config, old(Memory()), request, e)
    {
      MemoryIsServed(config, Spot(), request, e, cleanupSaves);
      match request
      case Redeem(client, scope, resource) => response := Redeem(client, scope, resource, e, cleanupSaves);
      case Exchange(token, client, given) => response := Exchange(token, client, given, e, cleanupSaves);
      case Revoke(token, client) =>
        RevokeIgnoresCleanup(config, Spot(), token, client, e, cleanupSaves);
        response := Revoke(token, client, e);
    }
  }

  // ---------- Several servers over one store ----------

  /** The servers are the instances of the system. */
  ghost predicate Stand(servers: seq<Server>, store: Store, c: Config, sys: System)
    reads store, set w | 0 <= w < |servers| :: servers[w]
  {
    && |servers| == |sys.insts| && store.disk == sys.disk && WellFormed(sys.disk)
    && (forall v, w :: 0 <= v < w < |servers| ==> servers[v] != servers[w])
    && forall w :: 0 <= w < |servers| ==>
         servers[w].store == store && servers[w].config == c && servers[w].Valid() && servers[w].Here() == sys.insts[w]
  }

  lemma HandleWellFormed(c: Config, x: Site, request: Request, e: Env, cleanupSaves: bool)
    requires WellFormed(x.disk)
    ensures WellFormed(HandleAt(c, x, request, e, cleanupSaves).disk)
  {
    var met := Met(x, request, e, cleanupSaves);
    MergeWellFormed(x.disk, Expire(x.inst, e.now).mem, Expire(x.inst, e.now).del, e.now);
    var a := Try(c, met.inst, request, e);
    if a.Save? { MergeWellFormed(met.disk, a.done.mem, a.done.del, e.now); }
  }

  /** One event at one server: a request, or a new server over the same store in its place. */
  method TakeStep(servers: seq<Server>, store: Store, c: Config, step: Step, ghost sys: System)
      returns (servers': seq<Server>, answer: Option<Response>)
    requires Stand(servers, store, c, sys) && step.who < |servers|
    requires step.event.Served? ==> FreshFor(sys.insts[step.who].mem, step.event.env)
    modifies store, servers[step.who]
    ensures |servers'| == |servers| && (forall w :: 0 <= w < |servers| && w != step.who ==> servers'[w] == servers[w])
    ensures servers'[step.who] == servers[step.who] || fresh(servers'[step.who])
    ensures Stand(servers', store, c, Next(c, sys, step))
    ensures step.event.Served? ==> answer == Some(Answer(c, sys.insts[step.who].mem, step.event))
  {
    var server := servers[step.who];
    match step.event
    case Served(request, env) =>
      HandleWellFormed(c, server.Spot(), request, env, step.cleanupSaves);
      var response := server.Handle(request, env, step.cleanupSaves);
      return servers, Some(response);
    case Restarted(now) =>
      var newServer := new Server(c, store, now);
      return servers[step.who := newServer], None;
  }

  /** The first `k` steps are accounted for. */
  ghost predicate StepsDone(c: Config, run: seq<System>, answers: seq<Option<Response>>, steps: seq<Step>, k: nat) {
    && k <= |steps| && |answers| == k && IsSystemRun(c, run, steps[..k]) && SystemDrawn(run[k], Events(steps), k)
    && forall m :: 0 <= m < k && steps[m].event.Served? ==> AnswersAs(c, run, answers, steps, m)
  }

  /** The answer is the one that the instance's own memory gives. */
  ghost predicate AnswersAs(c: Config, run: seq<System>, answers: seq<Option<Response>>, steps: seq<Step>, m: nat) {
    && m < |steps| && m < |run| && m < |answers| && steps[m].who < |run[m].insts| && steps[m].event.Served?
    && answers[m] == Some(Answer(c, run[m].insts[steps[m].who].mem, steps[m].event))
  }

  lemma AccountedOn(c: Config, run: seq<System>, answers: seq<Option<Response>>, steps: seq<Step>, k: nat,
                    answer: Option<Response>)
    requires k < |steps| && StepsDone(c, run, answers, steps, k) && NoCollisions(Events(steps)) && steps[k].who < |run[k].insts|
    requires forall a, b :: 0 <= a <= b < |steps| ==> Time(steps, a) <= Time(steps, b)
    requires steps[k].event.Served? ==> answer == Some(Answer(c, run[k].insts[steps[k].who].mem, steps[k].event))
    ensures StepsDone(c, run + [Next(c, run[k], steps[k])], answers + [answer], steps, k + 1)
  {
    var events, next := Events(steps), Next(c, run[k], steps[k]);
    if steps[k].event.Served? { SystemDrawnMeansNew(run[k], events, k); }
    NextDrawn(c, run[k], steps[k], events, k);
    SystemRunSnoc(c, run, steps, k, next);
    forall m | 0 <= m < k + 1 && steps[m].event.Served? ensures AnswersAs(c, run + [next], answers + [answer], steps, m) {
      if m < k { assert AnswersAs(c, run, answers, steps, m); }
    }
  }

  lemma NewAt(s: System, steps: seq<Step>, k: nat)
    requires k < |steps| && steps[k].event.Served? && steps[k].who < |s.insts|
    requires NoCollisions(Events(steps)) && SystemDrawn(s, Events(steps), k)
    ensures FreshFor(s.insts[steps[k].who].mem, steps[k].event.env)
  {
    SystemDrawnMeansNew(s, Events(steps), k);
    assert NewTo(s.insts[steps[k].who], Events(steps)[k].env);
  }

  lemma NothingYet(c: Config, n: nat, steps: seq<Step>)
    ensures StepsDone(c, [System(EMPTY, seq(n, _ => Instance(EMPTY, NONE_DELETED)))], [], steps, 0)
  {
  }

  method StartAll(c: Config, store: Store, n: nat) returns (servers: seq<Server>)
    requires store.disk == EMPTY
    ensures Stand(servers, store, c, System(EMPTY, seq(n, _ => Instance(EMPTY, NONE_DELETED))))
    ensures forall w :: 0 <= w < |servers| ==> fresh(servers[w])
  {
    servers := [];
    for k := 0 to n
      invariant |servers| == k && forall w :: 0 <= w < k ==> fresh(servers[w])
      invariant Stand(servers, store, c, System(EMPTY, seq(k, _ => Instance(EMPTY, NONE_DELETED))))
    {
      var server := new Server(c, store, 0);
      servers := servers + [server];
    }
  }

  /**
    Whatever requests arrive at which server, whichever saves fail and whichever server is restarted, store, memories and
    deletion lists are those of a run of the system; so every theorem about its runs holds of the servers.
   */
  method DriveAll(c: Config, n: nat, steps: seq<Step>)
      returns (store: Store, servers: seq<Server>, ghost run: seq<System>, answers: seq<Option<Response>>)
    requires NoCollisions(Events(steps)) && (forall k :: 0 <= k < |steps| ==> steps[k].who < n)
    requires forall k, l :: 0 <= k <= l < |steps| ==> Time(steps, k) <= Time(steps, l)
    ensures IsSystemRun(c, run, steps) && |run[0].insts| == n && |answers| == |steps|
    ensures Stand(servers, store, c, run[|steps|])
    ensures forall m :: 0 <= m < |steps| && steps[m].event.Served? ==> AnswersAs(c, run, answers, steps, m)
  {
    hide Next, SystemDrawn, NoCollisions, Monotone, FreshFor, Answer;
    store := new Store();
    servers := StartAll(c, store, n);
    NothingYet(c, n, steps);
    hide IsSystemRun, AnswersAs;
    run, answers := [System(EMPTY, seq(n, _ => Instance(EMPTY, NONE_DELETED)))], [];
    for k := 0 to |steps|
      invariant |run| == k + 1 && |run[0].insts| == n == |servers|
      invariant StepsDone(c, run, answers, steps, k)
      invariant fresh(store) && (forall w :: 0 <= w < |servers| ==> fresh(servers[w])) && Stand(servers, store, c, run[k])
    {
      if steps[k].event.Served? { NewAt(run[k], steps, k); }
      var answer;
      servers, answer := TakeStep(servers, store, c, steps[k], run[k]);
      AccountedOn(c, run, answers, steps, k, answer);
      run, answers := run + [Next(c, run[k], steps[k])], answers + [answer];
    }
    assert steps[..|steps|] == steps;
  }

  /** One server over its store follows a run of the machine in RefreshTokens, its answers included. */
  method Drive(c: Config, events: seq<Event>, cleanups: seq<bool>) returns (ghost run: seq<Tables>, answers: seq<Option<Response>>)
    requires NoCollisions(events) && Monotone(events) && |cleanups| == |events|
    ensures IsRun(c, run, events) && |answers| == |events|
    ensures forall k :: 0 <= k < |events| && events[k].Served? ==> answers[k] == Some(Answer(c, run[k], events[k]))
  {
    var steps := seq(|events|, k requires 0 <= k < |events| => Step(0, events[k], cleanups[k]));
    assert Events(steps) == events;
    ghost var systems;
    var store, servers;
    store, servers, systems, answers := DriveAll(c, 1, steps);
    SoloIsRun(c, systems, steps);
    run := Memories(systems);
    forall k | 0 <= k < |events| && events[k].Served? ensures answers[k] == Some(Answer(c, run[k], events[k])) {
      assert AnswersAs(c, systems, answers, steps, k);
    }
  }
}
