/**
  The store of explicit state handles. Handles are random and compared through their hash, so a handle is its own key;
  records stay in the store after use and only their status changes.
 */
module StateHandles {
  import opened Results

  type Handle = nat

  /** Who calls; scopes are compared after sorting and removing duplicates, that is, as sets. */
  datatype Identity = Identity(subject: string, client: string, audience: string, profile: string, scopes: set<string>)

  datatype Status = Active | Expired | Revoked

  datatype Rec<P> = Rec(kind: string, owner: Identity, expiresAt: int, status: Status, payload: P)

  /** The map and its insertion order. */
  datatype Records<P> = Records(recs: map<Handle, Rec<P>>, order: seq<Handle>)

  datatype Reason = NotFound | RevokedHandle | ExpiredHandle | KindMismatch | Unauthorized | ScopeDenied

  const MAX_TTL_MS := 24 * 60 * 60 * 1000
  const MAX_RECORDS := 1000

  function Min(a: int, b: int): int { if a < b then a else b }

  function Max(a: int, b: int): int { if a > b then a else b }

  ghost predicate Valid<P>(s: Records<P>) {
    && (forall h :: h in s.recs <==> h in s.order)
    && (forall i, j :: 0 <= i < j < |s.order| ==> s.order[i] != s.order[j])
    && |s.order| <= MAX_RECORDS
  }

  function Evict<P>(s: Records<P>): Records<P> {
    if |s.order| >= MAX_RECORDS then Records(s.recs - {s.order[0]}, s.order[1..]) else s
  }

  function Created<P>(s: Records<P>, h: Handle, kind: string, owner: Identity, payload: P, now: int, ttl: int): Records<P> {
    var room := Evict(s);
    Records(room.recs[h := Rec(kind, owner, now + Max(1, Min(ttl, MAX_TTL_MS)), Active, payload)], room.order + [h])
  }

  predicate SameParty(a: Identity, b: Identity) {
    a.subject == b.subject && a.client == b.client && a.audience == b.audience && a.profile == b.profile
  }

  /** Why a handle is refused; None when it is not. */
  function Refusal<P>(s: Records<P>, h: Handle, who: Identity, kind: string, now: int): Option<Reason> {
    if h !in s.recs then Some(NotFound)
    else
      var r := s.recs[h];
      if r.status != Active then Some(RevokedHandle)
      else if r.expiresAt <= now then Some(ExpiredHandle)
      else if r.kind != kind then Some(KindMismatch)
      else if !SameParty(r.owner, who) then Some(Unauthorized)
      else if !(r.owner.scopes <= who.scopes) then Some(ScopeDenied)
      else None
  }

  function WithStatus<P>(s: Records<P>, h: Handle, status: Status): Records<P>
    requires h in s.recs
  {
    s.(recs := s.recs[h := s.recs[h].(status := status)])
  }

  /** Looking a handle up marks it when it is found expired, whoever looks. */
  function Looked<P>(s: Records<P>, h: Handle, now: int): Records<P> {
    if h in s.recs && s.recs[h].status == Active && s.recs[h].expiresAt <= now then WithStatus(s, h, Expired) else s
  }

  function Destroyed<P>(s: Records<P>, h: Handle, who: Identity, kind: string, now: int): Records<P> {
    if Refusal(s, h, who, kind, now).None? then WithStatus(s, h, Revoked) else Looked(s, h, now)
  }

  class Store<P> {
    var records: Records<P>

    constructor ()
      ensures records == Records(map[], [])
    {
      records := Records(map[], []);
    }

    /** `h` is the random handle drawn. */
    method Create(h: Handle, kind: string, owner: Identity, payload: P, now: int, ttl: int)
      requires Valid(records) && h !in records.recs
      modifies this
      ensures records == Created(old(records), h, kind, owner, payload, now, ttl) && Valid(records)
    {
      ghost var before := records;
      var issuedAt, bounded := now, Max(1, Min(ttl, MAX_TTL_MS));
      if |records.order| >= MAX_RECORDS {
        var oldest := records.order[0];
        records := Records(records.recs - {oldest}, records.order[1..]);
      }
      CreatedValid(before, h, kind, owner, payload, now, ttl);
      records := Records(records.recs[h := Rec(kind, owner, issuedAt + bounded, Active, payload)], records.order + [h]);
    }

    method Read(h: Handle, who: Identity, kind: string, now: int) returns (r: Result<P, Reason>)
      modifies this
      ensures records == Looked(old(records), h, now)
      ensures match Refusal(old(records), h, who, kind, now)
        case None => h in records.recs && r == Ok(records.recs[h].payload)
        case Some(reason) => r == Err(reason)
    {
      if h !in records.recs { return Err(NotFound); }
      var rec := records.recs[h];
      if rec.status != Active { return Err(RevokedHandle); }
      if rec.expiresAt <= now {
        records := records.(recs := records.recs[h := rec.(status := Expired)]);
        return Err(ExpiredHandle);
      }
      if rec.kind != kind { return Err(KindMismatch); }
      if rec.owner.subject != who.subject { return Err(Unauthorized); }
      if rec.owner.client != who.client { return Err(Unauthorized); }
      if rec.owner.audience != who.audience { return Err(Unauthorized); }
      if rec.owner.profile != who.profile { return Err(Unauthorized); }
      if !(rec.owner.scopes <= who.scopes) { return Err(ScopeDenied); }
      return Ok(rec.payload);
    }

    method Destroy(h: Handle, who: Identity, kind: string, now: int) returns (r: Result<P, Reason>)
      modifies this
      ensures records == Destroyed(old(records), h, who, kind, now)
      ensures match Refusal(old(records), h, who, kind, now)
        case None => h in records.recs && r == Ok(records.recs[h].payload)
        case Some(reason) => r == Err(reason)
    {
      r := Read(h, who, kind, now);
      if r.Ok? { records := records.(recs := records.recs[h := records.recs[h].(status := Revoked)]); }
    }
  }

  lemma EvictValid<P>(s: Records<P>)
    requires Valid(s)
    ensures Valid(Evict(s)) && |Evict(s).order| < MAX_RECORDS
    ensures forall h :: h in Evict(s).recs ==> h in s.recs && Evict(s).recs[h] == s.recs[h]
  {
    if |s.order| >= MAX_RECORDS {
      var oldest, rest := s.order[0], s.order[1..];
      assert s.order == [oldest] + rest;
      forall h ensures h in s.recs - {oldest} <==> h in rest { assert h in s.order <==> h == oldest || h in rest; }
    }
  }

  lemma CreatedValid<P>(s: Records<P>, h: Handle, kind: string, owner: Identity, payload: P, now: int, ttl: int)
    requires Valid(s) && h !in s.recs
    ensures Valid(Created(s, h, kind, owner, payload, now, ttl))
  {
    EvictValid(s);
    var room := Evict(s);
    assert h !in room.order;
  }

  // ---------- What every operation keeps ----------

  /** The handle can never be accepted again: it is not active, or not there. */
  predicate Dead<P>(s: Records<P>, h: Handle) { h in s.recs ==> s.recs[h].status != Active }

  lemma DeadStays<P>(s: Records<P>, h: Handle, h': Handle, kind: string, who: Identity, payload: P, now: int, ttl: int)
    requires Valid(s) && Dead(s, h)
    ensures h' != h ==> Dead(Created(s, h', kind, who, payload, now, ttl), h)
    ensures Dead(Looked(s, h', now), h) && Dead(Destroyed(s, h', who, kind, now), h)
  {
    EvictValid(s);
  }

  /** A handle is accepted at most once: what accepts it ends it. */
  lemma DestroyEnds<P>(s: Records<P>, h: Handle, who: Identity, kind: string, now: int)
    requires Refusal(s, h, who, kind, now).None?
    ensures Dead(Destroyed(s, h, who, kind, now), h)
  {
  }

  /** A refused look-up changes the store exactly when it finds an active record that has expired. */
  lemma ForeignLookIsHarmless<P>(s: Records<P>, h: Handle, now: int)
    ensures Looked(s, h, now) != s <==> h in s.recs && s.recs[h].status == Active && s.recs[h].expiresAt <= now
    ensures forall o :: o in s.recs && o != h ==> o in Looked(s, h, now).recs && Looked(s, h, now).recs[o] == s.recs[o]
  {
  }

  /** Only statuses differ, and none becomes active again. */
  ghost predicate StatusOnly<P(!new)>(s: Records<P>, after: Records<P>) {
    && after.order == s.order && after.recs.Keys == s.recs.Keys
    && forall h :: h in s.recs ==> SameButStatus(s.recs[h], after.recs[h])
  }

  ghost predicate SameButStatus<P(!new)>(r: Rec<P>, after: Rec<P>) {
    after == r.(status := after.status) && (r.status != Active ==> after.status != Active)
  }

  lemma LookingChangesStatusOnly<P(!new)>(s: Records<P>, h: Handle, who: Identity, kind: string, now: int)
    ensures StatusOnly(s, s) && StatusOnly(s, Looked(s, h, now)) && StatusOnly(s, Destroyed(s, h, who, kind, now))
  {
  }

  /** In the order of creation, `younger` records come after `h`. */
  ghost predicate At<P>(s: Records<P>, h: Handle, younger: nat) {
    h in s.recs && younger < |s.order| && s.order[|s.order| - 1 - younger] == h
  }

  lemma EvictKeeps<P>(s: Records<P>, h: Handle, younger: nat)
    requires Valid(s) && At(s, h, younger) && younger + 1 < MAX_RECORDS
    ensures At(Evict(s), h, younger) && Evict(s).recs[h] == s.recs[h]
  {
    assert |s.order| >= MAX_RECORDS ==> s.order[0] != s.order[|s.order| - 1 - younger];
  }

  lemma CreatedKeeps<P>(s: Records<P>, h: Handle, younger: nat, h': Handle, kind: string, who: Identity, payload: P, now: int,
                        ttl: int)
    requires Valid(s) && At(s, h, younger) && younger + 1 < MAX_RECORDS && h' !in s.recs
    ensures var after := Created(s, h', kind, who, payload, now, ttl); At(after, h, younger + 1) && after.recs[h] == s.recs[h]
  {
    EvictKeeps(s, h, younger);
  }
}
