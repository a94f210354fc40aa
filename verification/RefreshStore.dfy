/**
  The shared store of the token tables. Saving merges what is on disk with what the saving instance remembers; the
  module says when that merge is exactly the instance's own tables, and what becomes of two rotations of one token.
 */
module RefreshStore {
  import opened RefreshTokens

  /** Tokens an instance deleted since its last successful save. */
  datatype Deleted = Deleted(access: set<Token>, refresh: set<Token>, used: set<Token>)

  const NONE_DELETED := Deleted({}, {}, {})

  /** Later expiry wins, then the larger token. */
  predicate Beats(m: map<Token, Record>, a: Token, b: Token)
    requires a in m && b in m
  {
    if m[a].expiresAt != m[b].expiresAt then m[a].expiresAt > m[b].expiresAt else a > b
  }

  function ChoosePreferred(m: map<Token, Record>, current: Token, candidate: Token): Token
    requires current in m && candidate in m
  {
    if Beats(m, candidate, current) then candidate else current
  }

  /** Nothing of the same grant beats it. */
  predicate IsPreferred(m: map<Token, Record>, t: Token)
    requires t in m
  {
    forall o :: o in m && m[o].grant == m[t].grant && o != t ==> Beats(m, t, o)
  }

  function PreferredOnly(m: map<Token, Record>): map<Token, Record> {
    map t | t in m && IsPreferred(m, t) :: m[t]
  }

  /** `seen` is accounted for: each of its grants has its best token chosen. */
  ghost predicate Chosen(m: map<Token, Record>, byGrant: map<Grant, Token>, seen: set<Token>) {
    && seen <= m.Keys
    && (forall g :: g in byGrant ==> byGrant[g] in seen && m[byGrant[g]].grant == g)
    && (forall t :: t in seen ==> m[t].grant in byGrant && (byGrant[m[t].grant] == t || Beats(m, byGrant[m[t].grant], t)))
  }

  /** The per-grant choice, whatever the order in which the candidates are met. */
  method ResolveGrants(candidates: map<Token, Record>) returns (merged: map<Token, Record>)
    ensures merged == PreferredOnly(candidates)
  {
    var byGrant: map<Grant, Token>, todo := map[], candidates.Keys;
    while todo != {}
      invariant todo <= candidates.Keys && Chosen(candidates, byGrant, candidates.Keys - todo)
      decreases |todo|
    {
      var t :| t in todo;
      var g := candidates[t].grant;
      byGrant := byGrant[g := if g in byGrant then ChoosePreferred(candidates, byGrant[g], t) else t];
      todo := todo - {t};
    }
    assert candidates.Keys - todo == candidates.Keys;
    ChosenArePreferred(candidates, byGrant);
    merged := map t | t in candidates && candidates[t].grant in byGrant && byGrant[candidates[t].grant] == t :: candidates[t];
  }

  lemma ChosenArePreferred(m: map<Token, Record>, byGrant: map<Grant, Token>)
    requires Chosen(m, byGrant, m.Keys)
    ensures forall t :: t in m ==> (byGrant[m[t].grant] == t <==> IsPreferred(m, t))
  {
    forall t | t in m ensures byGrant[m[t].grant] == t <==> IsPreferred(m, t) {
      var best := byGrant[m[t].grant];
      assert best == t || Beats(m, best, t);
    }
  }

  /** Candidates after the union: what is known to be used is not a candidate. */
  function Candidates(disk: Tables, mem: Tables, del: Deleted, now: int): map<Token, Record> {
    ((LiveRecords(disk.refresh, now) - del.refresh) + mem.refresh) - MergedUsed(disk, mem, del, now).Keys
  }

  function MergedUsed(disk: Tables, mem: Tables, del: Deleted, now: int): map<Token, Used> {
    (LiveUsed(disk.used, now) - del.used) + mem.used
  }

  function Merge(disk: Tables, mem: Tables, del: Deleted, now: int): Tables {
    Tables((LiveRecords(disk.access, now) - del.access) + mem.access,
           PreferredOnly(Candidates(disk, mem, del, now)),
           MergedUsed(disk, mem, del, now))
  }

  class Store {
    var disk: Tables

    constructor ()
      ensures disk == EMPTY
    {
      disk := EMPTY;
    }

    /** One save under the lock: read, merge, replace; or nothing at all. */
    method Save(mem: Tables, del: Deleted, now: int, works: bool) returns (ok: bool)
      modifies this
      ensures ok == works && disk == if works then Merge(old(disk), mem, del, now) else old(disk)
    {
      if works {
        var refresh := ResolveGrants(Candidates(disk, mem, del, now));
        disk := Tables((LiveRecords(disk.access, now) - del.access) + mem.access, refresh, MergedUsed(disk, mem, del, now));
      }
      return works;
    }
  }

  // ---------- One instance: a save writes exactly its tables ----------

  ghost predicate OnePerGrant(m: map<Token, Record>) {
    forall a, b :: a in m && b in m && m[a].grant == m[b].grant ==> a == b
  }

  ghost predicate WellFormed(s: Tables) { OnePerGrant(s.refresh) && s.refresh.Keys !! s.used.Keys }

  /** Whatever is no longer in the tables is on the deletion lists. */
  ghost predicate Accounted(before: Tables, after: Tables, del: Deleted) {
    && (forall t :: t in before.access && t !in after.access ==> t in del.access)
    && (forall t :: t in before.refresh && t !in after.refresh ==> t in del.refresh)
    && (forall t :: t in before.used && t !in after.used ==> t in del.used)
  }

  lemma MergeIsMemory(disk: Tables, mem: Tables, del: Deleted, now: int)
    requires Accounted(Live(disk, now), mem, del) && WellFormed(mem)
    ensures Merge(disk, mem, del, now) == mem
  {
    var live := Live(disk, now);
    assert (live.access - del.access) + mem.access == mem.access;
    assert MergedUsed(disk, mem, del, now) == mem.used;
    assert Candidates(disk, mem, del, now) == mem.refresh;
    assert PreferredOnly(mem.refresh) == mem.refresh;
  }

  /** Whoever saves, the store keeps one unused token per grant and no token that is both used and unused. */
  lemma MergeWellFormed(disk: Tables, mem: Tables, del: Deleted, now: int)
    ensures WellFormed(Merge(disk, mem, del, now))
  {
    var m := Candidates(disk, mem, del, now);
    forall a, b | a in PreferredOnly(m) && b in PreferredOnly(m) && m[a].grant == m[b].grant ensures a == b {
      BestIsUnique(m, a, b);
    }
  }

  lemma BestIsUnique(m: map<Token, Record>, a: Token, b: Token)
    requires a in m && b in m && IsPreferred(m, a) && IsPreferred(m, b) && m[a].grant == m[b].grant
    ensures a == b
  {
  }

  // ---------- Two instances ----------

  /**
    The promise fails when the stale instance exchanges the same token as well: both exchanges are answered, but exactly
    one of the two successors is in the store afterwards, namely the one that expires later, or else the larger token.
   */
  lemma StaleRotationDropsSuccessor(s: Tables, t: Token, first: Env, second: Env, now: int)
    requires WellFormed(s) && t in s.refresh && first.refresh != second.refresh
    requires FreshFor(s, first) && FreshFor(s, second) && first.now <= second.now <= now < first.now + REFRESH_TTL
    ensures var store := Merge(Rotate(s, t, first), Rotate(s, t, second), Deleted({}, {t}, {}), now);
      var secondWins := second.now > first.now || second.refresh > first.refresh;
      (second.refresh in store.refresh <==> secondWins) && (first.refresh in store.refresh <==> !secondWins)
  {
    SuccessorsCompete(s, t, first, second, now);
    var m := Candidates(Rotate(s, t, first), Rotate(s, t, second), Deleted({}, {t}, {}), now);
    assert second.refresh in PreferredOnly(m) <==> Beats(m, second.refresh, first.refresh);
    assert first.refresh in PreferredOnly(m) <==> Beats(m, first.refresh, second.refresh);
  }

  lemma SuccessorsCompete(s: Tables, t: Token, first: Env, second: Env, now: int)
    requires WellFormed(s) && t in s.refresh && first.refresh != second.refresh
    requires FreshFor(s, first) && FreshFor(s, second) && first.now <= second.now <= now < first.now + REFRESH_TTL
    ensures var m := Candidates(Rotate(s, t, first), Rotate(s, t, second), Deleted({}, {t}, {}), now);
      && first.refresh in m && m[first.refresh].expiresAt == first.now + REFRESH_TTL
      && second.refresh in m && m[second.refresh].expiresAt == second.now + REFRESH_TTL
      && m[first.refresh].grant == m[second.refresh].grant == s.refresh[t].grant
      && forall o :: o in m && m[o].grant == s.refresh[t].grant ==> o == first.refresh || o == second.refresh
  {
    Compete(s.refresh - {t}, Rotate(s, t, first), Rotate(s, t, second), t, first.refresh, second.refresh, now);
  }

  lemma Compete(rest: map<Token, Record>, a: Tables, b: Tables, t: Token, x: Token, y: Token, now: int)
    requires x in a.refresh && a.refresh == rest[x := a.refresh[x]] && y in b.refresh && b.refresh == rest[y := b.refresh[y]]
    requires x !in rest && y !in rest && x != y && a.refresh[x].expiresAt > now && a.refresh[x].grant == b.refresh[y].grant
    requires x != t && (forall u :: u in a.used || u in b.used ==> u != x && u != y)
    requires forall o :: o in rest ==> rest[o].grant != a.refresh[x].grant
    ensures var m := Candidates(a, b, Deleted({}, {t}, {}), now);
      && x in m && m[x] == a.refresh[x] && y in m && m[y] == b.refresh[y]
      && forall o :: o in m && m[o].grant == a.refresh[x].grant ==> o == x || o == y
  {
  }
}
