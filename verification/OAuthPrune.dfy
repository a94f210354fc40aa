/**
  Pruning the OAuth store: which clients and tokens are candidates, what applying the plan leaves, and what the JSON files
  and the SQLite tables make of it.
 */
module OAuthPrune {
  import opened Results

  datatype Client = Client(id: string, issuedAtSeconds: int)

  datatype Item = Item(token: string, client: string, grant: string, expiresAt: int)

  /** The three token lists and the client list, in file order. */
  datatype Data = Data(clients: seq<Client>, access: seq<Item>, refresh: seq<Item>, used: seq<Item>)

  datatype Policy = Policy(now: int, minAge: int, alsoReferenced: set<string>)

  predicate Live(i: Item, now: int) { i.token != "" && i.expiresAt > now }

  function Max(a: int, b: int): int { if a > b then a else b }

  function Age(c: Client, now: int): int { if c.issuedAtSeconds > 0 then Max(0, now - c.issuedAtSeconds * 1000) else 0 }

  function ClientIds(clients: seq<Client>): set<string> { set c | c in clients && c.id != "" :: c.id }

  function ReferencedBy(items: seq<Item>, now: int): set<string> {
    set i | i in items && Live(i, now) && i.client != "" :: i.client
  }

  /** Used tokens count only with a grant. */
  function WithGrant(items: seq<Item>): seq<Item> {
    if items == [] then [] else (if items[0].grant != "" then [items[0]] else []) + WithGrant(items[1..])
  }

  function Referenced(d: Data, p: Policy): set<string> {
    ReferencedBy(d.access, p.now) + ReferencedBy(d.refresh, p.now) + ReferencedBy(WithGrant(d.used), p.now) + p.alsoReferenced
  }

  // ---------- Candidates ----------

  predicate DeadClient(c: Client, d: Data, p: Policy) {
    c.id != "" && c.id !in Referenced(d, p) && Age(c, p.now) >= p.minAge
  }

  predicate Orphan(i: Item, d: Data, p: Policy) { Live(i, p.now) && i.client !in ClientIds(d.clients) }

  predicate UsedOrphan(i: Item, d: Data, p: Policy) { Orphan(i, d, p) && i.grant != "" }

  datatype Candidates = Candidates(clients: set<string>, access: set<string>, refresh: set<string>, used: set<string>)

  /** Clients and tokens to delete, by id and by token. */
  function CandidatesOf(d: Data, p: Policy): Candidates {
    Candidates(set c | c in d.clients && DeadClient(c, d, p) :: c.id,
               set i | i in d.access && Orphan(i, d, p) :: i.token,
               set i | i in d.refresh && Orphan(i, d, p) :: i.token,
               set i | i in d.used && UsedOrphan(i, d, p) :: i.token)
  }

  const NOTHING := Candidates({}, {}, {}, {})

  function KeepClients(clients: seq<Client>, gone: set<string>): seq<Client> {
    if clients == [] then [] else (if clients[0].id in gone then [] else [clients[0]]) + KeepClients(clients[1..], gone)
  }

  function KeepItems(items: seq<Item>, gone: set<string>): seq<Item> {
    if items == [] then [] else (if items[0].token in gone then [] else [items[0]]) + KeepItems(items[1..], gone)
  }

  /** The plan's proposed lists. */
  function Proposed(d: Data, p: Policy): Data {
    var c := CandidatesOf(d, p);
    Data(KeepClients(d.clients, c.clients), KeepItems(d.access, c.access), KeepItems(d.refresh, c.refresh), KeepItems(d.used, c.used))
  }

  lemma {:induction false} KeepClientsIs(clients: seq<Client>, gone: set<string>)
    ensures forall c :: c in KeepClients(clients, gone) <==> c in clients && c.id !in gone
  {
    if clients != [] {
      KeepClientsIs(clients[1..], gone);
      assert forall c :: c in clients <==> c == clients[0] || c in clients[1..];
    }
  }

  lemma {:induction false} KeepItemsIs(items: seq<Item>, gone: set<string>)
    ensures forall i :: i in KeepItems(items, gone) <==> i in items && i.token !in gone
  {
    if items != [] {
      KeepItemsIs(items[1..], gone);
      assert forall i :: i in items <==> i == items[0] || i in items[1..];
    }
  }

  lemma {:induction false} WithGrantIs(items: seq<Item>)
    ensures forall i :: i in WithGrant(items) <==> i in items && i.grant != ""
  {
    if items != [] {
      WithGrantIs(items[1..]);
      assert forall i :: i in items <==> i == items[0] || i in items[1..];
    }
  }

  // ---------- The preview ----------

  /** The tables a running server has loaded: keyed by token and client id, a later record taking the place of an earlier one. */
  datatype Tables = Tables(clients: map<string, Client>, access: map<string, Item>, refresh: map<string, Item>,
                           used: map<string, Item>)

  function LoadClients(clients: seq<Client>): map<string, Client> {
    if clients == [] then map[]
    else
      var front, last := LoadClients(clients[..|clients| - 1]), clients[|clients| - 1];
      if last.id != "" then front[last.id := last] else front
  }

  function LoadItems(items: seq<Item>, now: int): map<string, Item> {
    if items == [] then map[]
    else
      var front, last := LoadItems(items[..|items| - 1], now), items[|items| - 1];
      if Live(last, now) then front[last.token := last] else front
  }

  /** Live tokens only, used tokens only with a grant. */
  function Loaded(d: Data, now: int): Tables {
    Tables(LoadClients(d.clients), LoadItems(d.access, now), LoadItems(d.refresh, now), LoadItems(WithGrant(d.used), now))
  }

  function NamedBy(items: map<string, Item>): set<string> { set t | t in items && items[t].client != "" :: items[t].client }

  function OrphansOf(items: map<string, Item>, clients: map<string, Client>): set<string> {
    set t | t in items && items[t].client !in clients
  }

  /** The preview looks at the loaded tables and asks for no expiry. */
  function Previewed(t: Tables, p: Policy): Candidates {
    var named := NamedBy(t.access) + NamedBy(t.refresh) + NamedBy(t.used) + p.alsoReferenced;
    Candidates(set c | c in t.clients && c !in named && Age(t.clients[c], p.now) >= p.minAge :: c,
               OrphansOf(t.access, t.clients), OrphansOf(t.refresh, t.clients), OrphansOf(t.used, t.clients))
  }

  /** Live, and no later live record has its token. */
  predicate Last(items: seq<Item>, k: nat, now: int)
    requires k < |items|
  {
    Live(items[k], now) && forall l :: k < l < |items| && Live(items[l], now) ==> items[l].token != items[k].token
  }

  predicate LastClient(clients: seq<Client>, k: nat)
    requires k < |clients|
  {
    clients[k].id != "" && forall l :: k < l < |clients| ==> clients[l].id != clients[k].id
  }

  /** The last live record of each token is the one loaded. */
  lemma {:induction false} LoadItemsIs(items: seq<Item>, now: int)
    ensures var m := LoadItems(items, now);
      && (forall k :: 0 <= k < |items| && Last(items, k, now) ==> items[k].token in m && m[items[k].token] == items[k])
      && (forall k :: 0 <= k < |items| && Live(items[k], now) ==> items[k].token in m)
  {
    if items != [] {
      var front, last := items[..|items| - 1], items[|items| - 1];
      LoadItemsIs(front, now);
      LastSnoc(front, last, now);
      assert items == front + [last];
    }
  }

  /** Where a loaded record stands in the list. */
  lemma {:induction false} Origin(items: seq<Item>, now: int, t: string) returns (k: nat)
    requires t in LoadItems(items, now)
    ensures k < |items| && Last(items, k, now) && items[k] == LoadItems(items, now)[t] && items[k].token == t
  {
    var front, last := items[..|items| - 1], items[|items| - 1];
    assert items == front + [last];
    LastSnoc(front, last, now);
    if Live(last, now) && last.token == t { k := |front|; } else { k := Origin(front, now, t); }
  }

  lemma LastSnoc(front: seq<Item>, last: Item, now: int)
    ensures var items := front + [last];
      && (Last(items, |front|, now) <==> Live(last, now))
      && forall k :: 0 <= k < |front| ==>
           (Last(items, k, now) <==> Last(front, k, now) && !(Live(last, now) && last.token == front[k].token))
  {
    var items := front + [last];
    forall k | 0 <= k < |front|
      ensures Last(items, k, now) <==> Last(front, k, now) && !(Live(last, now) && last.token == front[k].token)
    {
      assert items[k] == front[k] && items[|front|] == last;
      if Last(items, k, now) {
        forall l | k < l < |front| && Live(front[l], now) ensures front[l].token != front[k].token { assert items[l] == front[l]; }
      }
    }
  }

  lemma LastClientSnoc(front: seq<Client>, last: Client)
    ensures var clients := front + [last];
      && (LastClient(clients, |front|) <==> last.id != "")
      && forall k :: 0 <= k < |front| ==> (LastClient(clients, k) <==> LastClient(front, k) && last.id != front[k].id)
  {
    var clients := front + [last];
    forall k | 0 <= k < |front| ensures LastClient(clients, k) <==> LastClient(front, k) && last.id != front[k].id {
      assert clients[k] == front[k] && clients[|front|] == last;
      if LastClient(clients, k) {
        forall l | k < l < |front| ensures front[l].id != front[k].id { assert clients[l] == front[l]; }
      }
    }
  }

  lemma {:induction false} LoadClientsIs(clients: seq<Client>)
    ensures var m := LoadClients(clients);
      && m.Keys == ClientIds(clients)
      && forall k :: 0 <= k < |clients| && LastClient(clients, k) ==> clients[k].id in m && m[clients[k].id] == clients[k]
  {
    if clients != [] {
      var front, last := clients[..|clients| - 1], clients[|clients| - 1];
      LoadClientsIs(front);
      LastClientSnoc(front, last);
      assert clients == front + [last];
      assert ClientIds(clients) == ClientIds(front) + (if last.id != "" then {last.id} else {});
    }
  }

  lemma {:induction false} ClientOrigin(clients: seq<Client>, id: string) returns (k: nat)
    requires id in LoadClients(clients)
    ensures k < |clients| && LastClient(clients, k) && clients[k] == LoadClients(clients)[id] && clients[k].id == id
  {
    var front, last := clients[..|clients| - 1], clients[|clients| - 1];
    assert clients == front + [last];
    LastClientSnoc(front, last);
    LoadClientsIs(clients);
    if last.id == id { k := |front|; } else { k := ClientOrigin(front, id); }
  }

  // ---------- When preview and plan agree ----------

  /** Every orphan's token still belongs to an orphan in its last live record. */
  ghost predicate OrphansShow(items: seq<Item>, d: Data, p: Policy) {
    forall k, l :: 0 <= k <= l < |items| && Orphan(items[k], d, p) && Last(items, l, p.now) && items[l].token == items[k].token ==>
      items[l].client !in ClientIds(d.clients)
  }

  /** Every dead client is old enough in the last record of its id too. */
  ghost predicate DeadShow(d: Data, p: Policy) {
    forall c, k :: c in d.clients && DeadClient(c, d, p) && 0 <= k < |d.clients| && LastClient(d.clients, k) && d.clients[k].id == c.id ==>
      Age(d.clients[k], p.now) >= p.minAge
  }

  /** The client is named by a record that is the last live one of its token. */
  ghost predicate NamedByLast(items: seq<Item>, now: int, id: string) {
    exists l :: 0 <= l < |items| && Last(items, l, now) && items[l].client == id
  }

  /** Every old enough client that is referenced is still referenced after loading. */
  ghost predicate ReferencesShow(d: Data, p: Policy) {
    forall k :: 0 <= k < |d.clients| && LastClient(d.clients, k) ==>
      Age(d.clients[k], p.now) >= p.minAge && d.clients[k].id in Referenced(d, p) ==> StillNamed(d, p, d.clients[k].id)
  }

  ghost predicate StillNamed(d: Data, p: Policy, id: string) {
    || NamedByLast(d.access, p.now, id) || NamedByLast(d.refresh, p.now, id) || NamedByLast(WithGrant(d.used), p.now, id)
    || id in p.alsoReferenced
  }

  lemma NamedIs(items: seq<Item>, now: int, id: string)
    requires id != ""
    ensures id in NamedBy(LoadItems(items, now)) <==> NamedByLast(items, now, id)
    ensures id in NamedBy(LoadItems(items, now)) ==> id in ReferencedBy(items, now)
  {
    LoadItemsIs(items, now);
    var m := LoadItems(items, now);
    if id in NamedBy(m) {
      var t :| t in m && m[t].client == id;
      var k := Origin(items, now, t);
      assert items[k] in items;
    }
    if NamedByLast(items, now, id) {
      var l :| 0 <= l < |items| && Last(items, l, now) && items[l].client == id;
      assert items[l].token in m;
    }
  }

  /** The last live record of a token comes no earlier than any of its live records. */
  lemma LastAfter(items: seq<Item>, k: nat, now: int) returns (l: nat)
    requires k < |items| && Live(items[k], now)
    ensures k <= l < |items| && Last(items, l, now) && items[l].token == items[k].token
    ensures items[k].token in LoadItems(items, now) && LoadItems(items, now)[items[k].token] == items[l]
  {
    LoadItemsIs(items, now);
    l := Origin(items, now, items[k].token);
  }

  function PlannedOrphans(items: seq<Item>, d: Data, p: Policy): set<string> {
    set i | i in items && Orphan(i, d, p) :: i.token
  }

  function ShownOrphans(items: seq<Item>, d: Data, p: Policy): set<string> {
    OrphansOf(LoadItems(items, p.now), LoadClients(d.clients))
  }

  lemma ShownIsPlanned(items: seq<Item>, d: Data, p: Policy)
    ensures ShownOrphans(items, d, p) <= PlannedOrphans(items, d, p)
  {
    LoadClientsIs(d.clients);
    forall t | t in ShownOrphans(items, d, p) ensures t in PlannedOrphans(items, d, p) {
      var k := Origin(items, p.now, t);
      assert items[k] in items && Orphan(items[k], d, p);
    }
  }

  lemma PlannedIsShown(items: seq<Item>, d: Data, p: Policy)
    requires OrphansShow(items, d, p)
    ensures PlannedOrphans(items, d, p) <= ShownOrphans(items, d, p)
  {
    hide LoadItems, LoadClients, Last;
    LoadClientsIs(d.clients);
    forall t | t in PlannedOrphans(items, d, p) ensures t in ShownOrphans(items, d, p) {
      var i :| i in items && Orphan(i, d, p) && i.token == t;
      var k :| 0 <= k < |items| && items[k] == i;
      var l := LastAfter(items, k, p.now);
      assert items[l].client !in ClientIds(d.clients);
    }
  }

  lemma HiddenIsNotShown(items: seq<Item>, d: Data, p: Policy)
    requires !OrphansShow(items, d, p)
    ensures PlannedOrphans(items, d, p) != ShownOrphans(items, d, p)
  {
    LoadItemsIs(items, p.now);
    LoadClientsIs(d.clients);
    var k, l :| 0 <= k <= l < |items| && Orphan(items[k], d, p) && Last(items, l, p.now) && items[l].token == items[k].token
             && items[l].client in ClientIds(d.clients);
    assert items[k] in items && items[k].token in PlannedOrphans(items, d, p);
    assert items[k].token !in ShownOrphans(items, d, p);
  }

  lemma OrphansAgreeIff(items: seq<Item>, d: Data, p: Policy)
    ensures ShownOrphans(items, d, p) == PlannedOrphans(items, d, p) <==> OrphansShow(items, d, p)
  {
    hide ShownOrphans, PlannedOrphans, OrphansShow;
    ShownIsPlanned(items, d, p);
    if OrphansShow(items, d, p) { PlannedIsShown(items, d, p); } else { HiddenIsNotShown(items, d, p); }
  }

  lemma NamedSetIs(d: Data, p: Policy, id: string)
    requires id != ""
    ensures var t := Loaded(d, p.now);
      id in NamedBy(t.access) + NamedBy(t.refresh) + NamedBy(t.used) + p.alsoReferenced <==> StillNamed(d, p, id)
    ensures StillNamed(d, p, id) ==> id in Referenced(d, p)
  {
    NamedIs(d.access, p.now, id);
    NamedIs(d.refresh, p.now, id);
    NamedIs(WithGrant(d.used), p.now, id);
  }

  /** What the preview says of a client is what its last record and the loaded tokens say. */
  lemma ShownIff(d: Data, p: Policy, k: nat)
    requires k < |d.clients| && LastClient(d.clients, k)
    ensures d.clients[k].id in Previewed(Loaded(d, p.now), p).clients
       <==> !StillNamed(d, p, d.clients[k].id) && Age(d.clients[k], p.now) >= p.minAge
  {
    hide StillNamed, Referenced, LoadItems;
    LoadClientsIs(d.clients);
    NamedSetIs(d, p, d.clients[k].id);
  }

  lemma PlannedIff(d: Data, p: Policy, id: string)
    ensures id in CandidatesOf(d, p).clients
       <==> id != "" && id !in Referenced(d, p) && exists c :: c in d.clients && c.id == id && Age(c, p.now) >= p.minAge
  {
    hide Referenced;
  }

  /** Per client: the last record is at `k`. */
  lemma ShownAndPlanned(d: Data, p: Policy, k: nat)
    requires k < |d.clients| && LastClient(d.clients, k)
    ensures var id := d.clients[k].id;
      (id in Previewed(Loaded(d, p.now), p).clients <==> id in CandidatesOf(d, p).clients)
      <==> (&& (Age(d.clients[k], p.now) >= p.minAge && id in Referenced(d, p) ==> StillNamed(d, p, id))
            && (forall c :: c in d.clients && DeadClient(c, d, p) && c.id == id ==> Age(d.clients[k], p.now) >= p.minAge))
  {
    hide StillNamed, Referenced, Previewed, CandidatesOf, LoadItems;
    var id := d.clients[k].id;
    ShownIff(d, p, k);
    PlannedIff(d, p, id);
    NamedSetIs(d, p, id);
    assert d.clients[k] in d.clients;
  }

  lemma DeadAgreeIff(d: Data, p: Policy)
    ensures Previewed(Loaded(d, p.now), p).clients == CandidatesOf(d, p).clients <==> DeadShow(d, p) && ReferencesShow(d, p)
  {
    var shown, planned := Previewed(Loaded(d, p.now), p).clients, CandidatesOf(d, p).clients;
    forall k | 0 <= k < |d.clients| && LastClient(d.clients, k)
      ensures var id := d.clients[k].id;
        (id in shown <==> id in planned)
        <==> (&& (Age(d.clients[k], p.now) >= p.minAge && id in Referenced(d, p) ==> StillNamed(d, p, id))
              && (forall c :: c in d.clients && DeadClient(c, d, p) && c.id == id ==> Age(d.clients[k], p.now) >= p.minAge))
    {
      ShownAndPlanned(d, p, k);
    }
    if DeadShow(d, p) && ReferencesShow(d, p) {
      forall id ensures id in shown <==> id in planned {
        LoadClientsIs(d.clients);
        if id in ClientIds(d.clients) { var k := ClientOrigin(d.clients, id); } else { PlannedIff(d, p, id); }
      }
    }
  }

  /**
    What a server previews from its loaded tables is what the plan finds in the stored lists exactly when no record that
    matters is hidden by a later one of the same token or client id.
   */
  lemma PreviewIsPlanIff(d: Data, p: Policy)
    ensures Previewed(Loaded(d, p.now), p) == CandidatesOf(d, p)
       <==> && OrphansShow(d.access, d, p) && OrphansShow(d.refresh, d, p) && OrphansShow(WithGrant(d.used), d, p)
            && DeadShow(d, p) && ReferencesShow(d, p)
  {
    OrphansAgreeIff(d.access, d, p);
    OrphansAgreeIff(d.refresh, d, p);
    OrphansAgreeIff(WithGrant(d.used), d, p);
    DeadAgreeIff(d, p);
    WithGrantIs(d.used);
    assert PlannedOrphans(WithGrant(d.used), d, p) == CandidatesOf(d, p).used;
  }

  /** An orphan and after it a working record under the same token: the plan lists the token, the preview does not. */
  lemma HiddenOrphan(now: int)
    ensures var d := Data([Client("app", 1)], [Item("t", "gone", "h", now + 1), Item("t", "app", "g", now + 1)], [], []);
      var p := Policy(now, 0, {});
      "t" in CandidatesOf(d, p).access && "t" !in Previewed(Loaded(d, now), p).access
  {
    var orphan, working := Item("t", "gone", "h", now + 1), Item("t", "app", "g", now + 1);
    var d, p := Data([Client("app", 1)], [orphan, working], [], []), Policy(now, 0, {});
    assert Client("app", 1) in d.clients && ClientIds(d.clients) == {"app"};
    assert orphan in d.access && Orphan(orphan, d, p);
    LoadItemsIs(d.access, now);
    LoadClientsIs(d.clients);
    assert Last(d.access, 1, now);
  }

  // ---------- What applying keeps ----------

  /** No record that is to stay carries the token of an orphan, or the id of a dead client. */
  ghost predicate NoClash(items: seq<Item>, gone: set<string>, d: Data, p: Policy) {
    forall i :: i in items && i.token in gone ==> Live(i, p.now) && i.client !in ClientIds(d.clients)
  }

  ghost predicate NoClashes(d: Data, p: Policy) {
    var c := CandidatesOf(d, p);
    && NoClash(d.access, c.access, d, p) && NoClash(d.refresh, c.refresh, d, p)
    && (forall i :: i in d.used && i.token in c.used ==> UsedOrphan(i, d, p))
    && (forall x :: x in d.clients && x.id in c.clients ==> DeadClient(x, d, p))
  }

  /** A token that works: live, and of a registered client. */
  predicate Working(i: Item, d: Data, p: Policy) { Live(i, p.now) && i.client in ClientIds(d.clients) }

  /** Whether applying keeps every record that is not a candidate, in all three lists. */
  ghost predicate DeletesOnlyCandidates(d: Data, p: Policy) {
    var after := Proposed(d, p);
    && (forall i :: i in d.access && !Orphan(i, d, p) ==> i in after.access)
    && (forall i :: i in d.refresh && !Orphan(i, d, p) ==> i in after.refresh)
    && (forall i :: i in d.used && !UsedOrphan(i, d, p) ==> i in after.used)
    && (forall c :: c in d.clients && !DeadClient(c, d, p) ==> c in after.clients)
  }

  lemma ProposedIs(d: Data, p: Policy)
    ensures var after, c := Proposed(d, p), CandidatesOf(d, p);
      && (forall i :: i in after.access <==> i in d.access && i.token !in c.access)
      && (forall i :: i in after.refresh <==> i in d.refresh && i.token !in c.refresh)
      && (forall i :: i in after.used <==> i in d.used && i.token !in c.used)
      && (forall x :: x in after.clients <==> x in d.clients && x.id !in c.clients)
  {
    var c := CandidatesOf(d, p);
    KeepClientsIs(d.clients, c.clients);
    KeepItemsIs(d.access, c.access);
    KeepItemsIs(d.refresh, c.refresh);
    KeepItemsIs(d.used, c.used);
  }

  /** Deletion goes by token string and client id: exactly the candidates go if and only if no other record shares one. */
  lemma DeletesExactlyIff(d: Data, p: Policy)
    ensures DeletesOnlyCandidates(d, p) <==> NoClashes(d, p)
    ensures var after := Proposed(d, p);
      && (forall i :: i in after.access ==> i in d.access && !Orphan(i, d, p))
      && (forall i :: i in after.refresh ==> i in d.refresh && !Orphan(i, d, p))
      && (forall i :: i in after.used ==> i in d.used && !UsedOrphan(i, d, p))
      && (forall c :: c in after.clients ==> c in d.clients && !DeadClient(c, d, p))
  {
    ProposedIs(d, p);
  }

  // ---------- What still works afterwards ----------

  /** No orphan of the list has the record's token. */
  ghost predicate Spared(i: Item, items: seq<Item>, d: Data, p: Policy) {
    forall o :: o in items && Orphan(o, d, p) ==> o.token != i.token
  }

  ghost predicate WorkingSpared(items: seq<Item>, d: Data, p: Policy) {
    forall i :: i in items && Working(i, d, p) ==> Spared(i, items, d, p)
  }

  /** The working tokens of the list are in the new one and still work. */
  ghost predicate WorkingStay(before: seq<Item>, after: seq<Item>, d: Data, p: Policy) {
    forall i :: i in before && Working(i, d, p) ==> i in after && Working(i, Proposed(d, p), p)
  }

  lemma SparedIs(d: Data, p: Policy)
    ensures var c := CandidatesOf(d, p);
      && (forall i: Item :: i.token !in c.access <==> Spared(i, d.access, d, p))
      && (forall i: Item :: i.token !in c.refresh <==> Spared(i, d.refresh, d, p))
      && (forall i: Item :: i.token !in c.used <==> Spared(i, WithGrant(d.used), d, p))
  {
    WithGrantIs(d.used);
    hide Orphan;
  }

  /** A registered client that a live record names keeps its registration. */
  lemma NamedClientStays(d: Data, p: Policy, i: Item)
    requires Working(i, d, p) && (i in d.access || i in d.refresh || i in WithGrant(d.used))
    ensures Working(i, Proposed(d, p), p)
  {
    ProposedIs(d, p);
    var x :| x in d.clients && x.id != "" && x.id == i.client;
    assert i.client in Referenced(d, p);
    assert x in Proposed(d, p).clients;
  }

  /** Every working token and its client survive if and only if no working token is that of an orphan in the same list. */
  lemma WorkingTokensStayIff(d: Data, p: Policy)
    ensures var after := Proposed(d, p);
      && (WorkingStay(d.access, after.access, d, p) <==> WorkingSpared(d.access, d, p))
      && (WorkingStay(d.refresh, after.refresh, d, p) <==> WorkingSpared(d.refresh, d, p))
      && (WorkingStay(WithGrant(d.used), WithGrant(after.used), d, p) <==> WorkingSpared(WithGrant(d.used), d, p))
  {
    ProposedIs(d, p);
    WithGrantIs(d.used);
    WithGrantIs(Proposed(d, p).used);
    SparedIs(d, p);
    hide Proposed, CandidatesOf, Working, Spared, WithGrant;
    forall i | Working(i, d, p) && (i in d.access || i in d.refresh || i in WithGrant(d.used)) ensures Working(i, Proposed(d, p), p) {
      NamedClientStays(d, p, i);
    }
  }

  /** A live record that is spared names the client. */
  ghost predicate NamedBySpared(items: seq<Item>, d: Data, p: Policy, id: string) {
    exists i :: i in items && Live(i, p.now) && i.client == id && Spared(i, items, d, p)
  }

  ghost predicate StaysNamed(d: Data, p: Policy, id: string) {
    || id in p.alsoReferenced || NamedBySpared(d.access, d, p, id) || NamedBySpared(d.refresh, d, p, id)
    || NamedBySpared(WithGrant(d.used), d, p, id)
  }

  /** Every old enough client that a live record names is named by one that is spared. */
  ghost predicate ReferencesStay(d: Data, p: Policy) {
    forall c :: c in d.clients && c.id != "" && Age(c, p.now) >= p.minAge && c.id in Referenced(d, p) ==> StaysNamed(d, p, c.id)
  }

  lemma ReferencedAfter(d: Data, p: Policy, id: string)
    requires id != ""
    ensures id in Referenced(Proposed(d, p), p) <==> StaysNamed(d, p, id)
  {
    var after := Proposed(d, p);
    ProposedIs(d, p);
    WithGrantIs(d.used);
    WithGrantIs(after.used);
    SparedIs(d, p);
    hide Proposed, CandidatesOf, Spared, WithGrant, Live;
    NamedAfter(d.access, after.access, d, p, id);
    NamedAfter(d.refresh, after.refresh, d, p, id);
    NamedAfter(WithGrant(d.used), WithGrant(after.used), d, p, id);
  }

  lemma NamedAfter(before: seq<Item>, after: seq<Item>, d: Data, p: Policy, id: string)
    requires id != "" && forall i :: i in after <==> i in before && Spared(i, before, d, p)
    ensures id in ReferencedBy(after, p.now) <==> NamedBySpared(before, d, p, id)
  {
    hide Spared, Live;
  }

  lemma ReferencesShrink(d: Data, p: Policy)
    ensures Referenced(Proposed(d, p), p) <= Referenced(d, p)
  {
    ProposedIs(d, p);
    WithGrantIs(d.used);
    WithGrantIs(Proposed(d, p).used);
    hide Proposed, CandidatesOf, WithGrant, Live;
  }

  /**
    After applying, the plan made at the same time has nothing left to delete if and only if no old enough client has lost
    the last record that names it.
   */
  lemma NothingLeftToPruneIff(d: Data, p: Policy)
    ensures CandidatesOf(Proposed(d, p), p) == NOTHING <==> ReferencesStay(d, p)
  {
    var after := Proposed(d, p);
    ProposedIs(d, p);
    NoNewOrphans(d, p);
    forall c | c in after.clients ensures DeadClient(c, after, p) <==>
      c.id != "" && Age(c, p.now) >= p.minAge && c.id in Referenced(d, p) && !StaysNamed(d, p, c.id)
    {
      if c.id != "" { ReferencedAfter(d, p, c.id); }
      ReferencesShrink(d, p);
    }
    LeftClients(d, p);
  }

  /** Only clients can be left, and those that are referenced are all there. */
  lemma LeftClients(d: Data, p: Policy)
    ensures var after := Proposed(d, p);
      CandidatesOf(after, p) == NOTHING <==> forall c :: c in after.clients ==> !DeadClient(c, after, p)
    ensures forall c :: c in d.clients && c.id in Referenced(d, p) ==> c in Proposed(d, p).clients
  {
    var after := Proposed(d, p);
    ProposedIs(d, p);
    NoNewOrphans(d, p);
    var left := CandidatesOf(after, p);
    assert left.access == {} && left.refresh == {} && left.used == {};
    hide Proposed, Orphan, Referenced;
    if c :| c in after.clients && DeadClient(c, after, p) { assert c.id in left.clients; }
  }

  lemma NoNewOrphans(d: Data, p: Policy)
    ensures var after := Proposed(d, p);
      && (forall i :: i in after.access ==> !Orphan(i, after, p)) && (forall i :: i in after.refresh ==> !Orphan(i, after, p))
      && (forall i :: i in after.used ==> !UsedOrphan(i, after, p))
  {
    var after := Proposed(d, p);
    ProposedIs(d, p);
    WithGrantIs(d.used);
    forall i | Live(i, p.now) && (i in after.access || i in after.refresh || (i in after.used && i.grant != ""))
      ensures i.client in ClientIds(after.clients)
    {
      assert i.client in ClientIds(d.clients);
      assert i.client in Referenced(d, p);
      var x :| x in d.clients && x.id == i.client;
      assert x in after.clients;
    }
  }

  /** With two records under one token string, a working token goes with the orphan and its client is next. */
  lemma ClashLosesWorkingToken(now: int)
    ensures var working, orphan := Item("t", "app", "g", now + 1), Item("t", "gone", "h", now + 1);
      var d, p := Data([Client("app", 1)], [working, orphan], [], []), Policy(now, 0, {});
      Working(working, d, p) && working !in Proposed(d, p).access && CandidatesOf(Proposed(d, p), p) != NOTHING
  {
    var working, orphan := Item("t", "app", "g", now + 1), Item("t", "gone", "h", now + 1);
    var d, p := Data([Client("app", 1)], [working, orphan], [], []), Policy(now, 0, {});
    assert Client("app", 1) in d.clients;
    assert ClientIds(d.clients) == {"app"};
    assert working in d.access && orphan in d.access && Orphan(orphan, d, p);
    assert orphan.token in CandidatesOf(d, p).access;
    ProposedIs(d, p);
    WithGrantIs(d.used);
    var after := Proposed(d, p);
    assert "app" in Referenced(d, p);
    assert Client("app", 1) in after.clients;
    assert after.refresh == [] && after.used == [];
    BothGo(working, orphan, CandidatesOf(d, p).access);
    assert DeadClient(Client("app", 1), after, p);
  }

  lemma BothGo(a: Item, b: Item, gone: set<string>)
    requires a.token in gone && b.token in gone
    ensures KeepItems([a, b], gone) == []
  {
    var one, two := [b], [a, b];
    assert two[1..] == one && one[1..] == [];
    assert KeepItems(one, gone) == [];
  }

  // ---------- The two backends ----------

  /** Inserting under a primary key: records without a token are skipped, a second use of a token fails the transaction. */
  function InsertItems(items: seq<Item>): Option<seq<Item>> {
    if items == [] then Some([])
    else
      var front, last := InsertItems(items[..|items| - 1]), items[|items| - 1];
      if front.None? then None
      else if last.token == "" then front
      else if exists i :: i in front.value && i.token == last.token then None
      else Some(front.value + [last])
  }

  /** A later record of the same client takes the place of the earlier one. */
  function Upsert(rows: seq<Client>, c: Client): seq<Client> {
    if rows == [] then [c] else if rows[0].id == c.id then [c] + rows[1..] else [rows[0]] + Upsert(rows[1..], c)
  }

  function InsertClients(clients: seq<Client>): seq<Client> {
    if clients == [] then []
    else
      var front, last := InsertClients(clients[..|clients| - 1]), clients[|clients| - 1];
      if last.id == "" then front else Upsert(front, last)
  }

  /** What the tables hold after the transaction; None when it was rolled back. */
  function WrittenToTables(d: Data): Option<Data> {
    var a, r, u := InsertItems(d.access), InsertItems(d.refresh), InsertItems(d.used);
    if a.None? || r.None? || u.None? then None else Some(Data(InsertClients(d.clients), a.value, r.value, u.value))
  }

  predicate Keyed(items: seq<Item>) {
    && (forall i :: 0 <= i < |items| ==> items[i].token != "")
    && (forall i, j :: 0 <= i < j < |items| ==> items[i].token != items[j].token)
  }

  predicate KeyedClients(clients: seq<Client>) {
    && (forall i :: 0 <= i < |clients| ==> clients[i].id != "")
    && (forall i, j :: 0 <= i < j < |clients| ==> clients[i].id != clients[j].id)
  }

  lemma {:induction false} ItemsSurviveIff(items: seq<Item>)
    ensures InsertItems(items) == Some(items) <==> Keyed(items)
    ensures InsertItems(items).Some? ==> |InsertItems(items).value| <= |items|
  {
    if items != [] {
      var front, last := items[..|items| - 1], items[|items| - 1];
      ItemsSurviveIff(front);
      assert items == front + [last];
      assert Keyed(items) <==> Keyed(front) && last.token != "" && forall i :: i in front ==> i.token != last.token by {
        KeyedSnoc(front, last);
      }
    }
  }

  lemma KeyedSnoc(front: seq<Item>, last: Item)
    ensures Keyed(front + [last]) <==> Keyed(front) && last.token != "" && forall i :: i in front ==> i.token != last.token
  {
    var all := front + [last];
    if Keyed(all) {
      forall i | 0 <= i < |front| ensures front[i].token != "" && front[i].token != last.token { assert all[i] == front[i] && all[|front|] == last; }
      forall i, j | 0 <= i < j < |front| ensures front[i].token != front[j].token { assert all[i] == front[i] && all[j] == front[j]; }
      assert all[|front|] == last;
    }
    if Keyed(front) && last.token != "" && forall i :: i in front ==> i.token != last.token {
      forall i | 0 <= i < |front| ensures front[i].token != last.token { assert front[i] in front; }
    }
  }

  lemma {:induction false} UpsertIs(rows: seq<Client>, c: Client)
    ensures (exists r :: r in rows && r.id == c.id) ==> |Upsert(rows, c)| == |rows|
    ensures !(exists r :: r in rows && r.id == c.id) ==> Upsert(rows, c) == rows + [c]
  {
    if rows != [] {
      UpsertIs(rows[1..], c);
      assert forall r :: r in rows <==> r == rows[0] || r in rows[1..];
    }
  }

  lemma {:induction false} ClientsSurviveIff(clients: seq<Client>)
    ensures InsertClients(clients) == clients <==> KeyedClients(clients)
    ensures |InsertClients(clients)| <= |clients|
  {
    if clients != [] {
      var front, last := clients[..|clients| - 1], clients[|clients| - 1];
      ClientsSurviveIff(front);
      UpsertIs(InsertClients(front), last);
      assert clients == front + [last];
      KeyedClientsSnoc(front, last);
      if InsertClients(clients) == clients { assert |InsertClients(clients)| == |front| + 1; }
    }
  }

  lemma KeyedClientsSnoc(front: seq<Client>, last: Client)
    ensures KeyedClients(front + [last]) <==> KeyedClients(front) && last.id != "" && forall c :: c in front ==> c.id != last.id
  {
    var all := front + [last];
    if KeyedClients(all) {
      forall i | 0 <= i < |front| ensures front[i].id != "" && front[i].id != last.id { assert all[i] == front[i] && all[|front|] == last; }
      forall i, j | 0 <= i < j < |front| ensures front[i].id != front[j].id { assert all[i] == front[i] && all[j] == front[j]; }
      assert all[|front|] == last;
    }
    if KeyedClients(front) && last.id != "" && forall c :: c in front ==> c.id != last.id {
      forall i | 0 <= i < |front| ensures front[i].id != last.id { assert front[i] in front; }
    }
  }

  predicate AllKeyed(d: Data) { KeyedClients(d.clients) && Keyed(d.access) && Keyed(d.refresh) && Keyed(d.used) }

  /** With unique keys, as in a table or a file the server wrote, nothing is hidden. */
  lemma KeyedPreviewIsPlan(d: Data, p: Policy)
    requires AllKeyed(d)
    ensures Previewed(Loaded(d, p.now), p) == CandidatesOf(d, p)
  {
    PreviewIsPlanIff(d, p);
    WithGrantKeyed(d.used);
    WithGrantIs(d.used);
    KeyedOrphansShow(d.access, d, p);
    KeyedOrphansShow(d.refresh, d, p);
    KeyedOrphansShow(WithGrant(d.used), d, p);
    forall c, k | c in d.clients && DeadClient(c, d, p) && 0 <= k < |d.clients| && LastClient(d.clients, k) && d.clients[k].id == c.id
      ensures Age(d.clients[k], p.now) >= p.minAge
    {
      var l :| 0 <= l < |d.clients| && d.clients[l] == c;
      assert l == k;
    }
    forall id | id in Referenced(d, p) ensures StillNamed(d, p, id) {
      if id in ReferencedBy(d.access, p.now) { KeyedNames(d.access, p.now, id); }
      if id in ReferencedBy(d.refresh, p.now) { KeyedNames(d.refresh, p.now, id); }
      if id in ReferencedBy(WithGrant(d.used), p.now) { KeyedNames(WithGrant(d.used), p.now, id); }
    }
  }

  lemma KeyedOrphansShow(items: seq<Item>, d: Data, p: Policy)
    requires Keyed(items)
    ensures OrphansShow(items, d, p)
  {
  }

  lemma KeyedNames(items: seq<Item>, now: int, id: string)
    requires Keyed(items) && id in ReferencedBy(items, now)
    ensures NamedByLast(items, now, id)
  {
    var i :| i in items && Live(i, now) && i.client == id;
    var k :| 0 <= k < |items| && items[k] == i;
    assert Last(items, k, now);
  }

  lemma {:induction false} WithGrantKeyed(items: seq<Item>)
    requires Keyed(items)
    ensures Keyed(WithGrant(items))
  {
    if items != [] {
      var rest := items[1..];
      assert Keyed(rest);
      WithGrantKeyed(rest);
      WithGrantIs(rest);
      forall i | i in rest ensures i.token != items[0].token {
        var k :| 0 <= k < |rest| && rest[k] == i;
        assert items[k + 1] == i;
      }
      KeyedCons(items[0], WithGrant(rest));
    }
  }

  /** The tables hold exactly what the files would hold if and only if ids and tokens are present and unique. */
  lemma BackendsAgreeIff(d: Data)
    ensures WrittenToTables(d) == Some(d) <==> AllKeyed(d)
  {
    ItemsSurviveIff(d.access);
    ItemsSurviveIff(d.refresh);
    ItemsSurviveIff(d.used);
    ClientsSurviveIff(d.clients);
  }

  lemma {:induction false} KeepItemsKeyed(items: seq<Item>, gone: set<string>)
    requires Keyed(items)
    ensures Keyed(KeepItems(items, gone))
  {
    if items != [] {
      var rest := items[1..];
      assert Keyed(rest);
      KeepItemsKeyed(rest, gone);
      KeepItemsIs(rest, gone);
      KeyedCons(items[0], KeepItems(rest, gone));
      forall i | i in rest ensures i.token != items[0].token {
        var k :| 0 <= k < |rest| && rest[k] == i;
        assert items[k + 1] == i;
      }
      KeyedCons(items[0], KeepItems(rest, gone));
    }
  }

  lemma KeyedCons(first: Item, rest: seq<Item>)
    ensures Keyed(rest) && first.token != "" && (forall i :: i in rest ==> i.token != first.token) ==> Keyed([first] + rest)
  {
    var all := [first] + rest;
    if Keyed(rest) && first.token != "" && forall i :: i in rest ==> i.token != first.token {
      forall j | 0 < j < |all| ensures all[j].token != first.token && all[j].token != "" { assert all[j] == rest[j - 1] && all[j] in rest; }
      forall i, j | 0 < i < j < |all| ensures all[i].token != all[j].token { assert all[i] == rest[i - 1] && all[j] == rest[j - 1]; }
    }
  }

  lemma {:induction false} KeepClientsKeyed(clients: seq<Client>, gone: set<string>)
    requires KeyedClients(clients)
    ensures KeyedClients(KeepClients(clients, gone))
  {
    if clients != [] {
      var rest := clients[1..];
      assert KeyedClients(rest);
      KeepClientsKeyed(rest, gone);
      KeepClientsIs(rest, gone);
      forall c | c in rest ensures c.id != clients[0].id {
        var k :| 0 <= k < |rest| && rest[k] == c;
        assert clients[k + 1] == c;
      }
      KeyedClientsCons(clients[0], KeepClients(rest, gone));
    }
  }

  lemma KeyedClientsCons(first: Client, rest: seq<Client>)
    ensures KeyedClients(rest) && first.id != "" && (forall c :: c in rest ==> c.id != first.id) ==> KeyedClients([first] + rest)
  {
    var all := [first] + rest;
    if KeyedClients(rest) && first.id != "" && forall c :: c in rest ==> c.id != first.id {
      forall j | 0 < j < |all| ensures all[j].id != first.id && all[j].id != "" { assert all[j] == rest[j - 1] && all[j] in rest; }
      forall i, j | 0 < i < j < |all| ensures all[i].id != all[j].id { assert all[i] == rest[i - 1] && all[j] == rest[j - 1]; }
    }
  }

  /** From data the tables can hold, applying the plan gives the same on both backends. */
  lemma ApplyingAgrees(d: Data, p: Policy)
    requires AllKeyed(d)
    ensures WrittenToTables(Proposed(d, p)) == Some(Proposed(d, p))
  {
    var c := CandidatesOf(d, p);
    KeepClientsKeyed(d.clients, c.clients);
    KeepItemsKeyed(d.access, c.access);
    KeepItemsKeyed(d.refresh, c.refresh);
    KeepItemsKeyed(d.used, c.used);
    BackendsAgreeIff(Proposed(d, p));
  }

  // ---------- Half applied ----------

  /** The tokens are written, the clients are not yet. */
  function HalfApplied(d: Data, p: Policy): Data { Proposed(d, p).(clients := d.clients) }

  lemma {:induction false} KeepNothing(items: seq<Item>)
    ensures KeepItems(items, {}) == items
  {
    if items != [] { KeepNothing(items[1..]); }
  }

  /**
    When the second of the two files could not be written, the tokens are those of the full plan and every client is still
    registered; applying again finishes the plan if and only if no old enough client has lost the last record that names it.
   */
  lemma HalfAppliedFinishesIff(d: Data, p: Policy)
    ensures Proposed(HalfApplied(d, p), p) == Proposed(d, p) <==> ReferencesStay(d, p)
    ensures forall i :: Working(i, d, p) <==> Working(i, HalfApplied(d, p), p)
  {
    var half := HalfApplied(d, p);
    NoOrphansInHalf(d, p);
    KeepNothing(half.access);
    KeepNothing(half.refresh);
    KeepNothing(half.used);
    KeepClientsIs(d.clients, CandidatesOf(half, p).clients);
    KeepClientsIs(d.clients, CandidatesOf(d, p).clients);
    DeadInHalf(d, p);
    if !ReferencesStay(d, p) {
      var c :| c in d.clients && c.id != "" && Age(c, p.now) >= p.minAge && c.id in Referenced(d, p) && !StaysNamed(d, p, c.id);
      assert c in Proposed(d, p).clients && c !in Proposed(half, p).clients;
    }
  }

  lemma NoOrphansInHalf(d: Data, p: Policy)
    ensures var c := CandidatesOf(HalfApplied(d, p), p); c.access == {} && c.refresh == {} && c.used == {}
  {
    ProposedIs(d, p);
  }

  /** Dead are the clients that were, and those whose last record went. */
  lemma DeadInHalf(d: Data, p: Policy)
    ensures forall c :: c in d.clients ==>
      (DeadClient(c, HalfApplied(d, p), p) <==>
         DeadClient(c, d, p) || (c.id != "" && Age(c, p.now) >= p.minAge && c.id in Referenced(d, p) && !StaysNamed(d, p, c.id)))
    ensures ReferencesStay(d, p) ==> CandidatesOf(HalfApplied(d, p), p).clients == CandidatesOf(d, p).clients
  {
    forall c | c in d.clients
      ensures DeadClient(c, HalfApplied(d, p), p) <==>
        DeadClient(c, d, p) || (c.id != "" && Age(c, p.now) >= p.minAge && c.id in Referenced(d, p) && !StaysNamed(d, p, c.id))
    {
      if c.id != "" { ReferencedAfter(d, p, c.id); }
      ReferencesShrink(d, p);
    }
  }

  datatype Backend = JsonFiles | SqliteTables

  datatype ApplyResult = Denied | Applied | RolledBack | NotWritten | HalfWritten

  /** The store that is pruned, with the backup taken before anything is written. */
  class PruneTarget {
    const backend: Backend
    var data: Data
    var backup: Option<Data>

    constructor (backend: Backend, data: Data)
      ensures this.backend == backend && this.data == data && backup == None
    {
      this.backend, this.data, backup := backend, data, None;
    }

    /**
      `granted` lists the required approvals and verifications; every one of them must hold. `writes` says how many of the
      JSON files can be written, the token file first.
     */
    method Execute(granted: seq<bool>, p: Policy, writes: nat) returns (r: ApplyResult)
      modifies this
      ensures r == Denied <==> false in granted
      ensures r == Denied ==> data == old(data) && backup == old(backup)
      ensures r != Denied ==> backup == Some(old(data))
      ensures r == Applied ==> Some(data) == if backend == JsonFiles then Some(Proposed(old(data), p)) else WrittenToTables(Proposed(old(data), p))
      ensures r == RolledBack ==> data == old(data) && WrittenToTables(Proposed(data, p)) == None
      ensures r == NotWritten ==> data == old(data)
      ensures r == HalfWritten ==> data == HalfApplied(old(data), p)
      ensures r != Denied && backend == JsonFiles ==> r == match writes case 0 => NotWritten case 1 => HalfWritten case _ => Applied
    {
      var plan := Proposed(data, p);
      if false in granted { return Denied; }
      backup := Some(data);
      if backend == JsonFiles {
        if writes == 0 { return NotWritten; }
        data := plan.(clients := data.clients);
        if writes == 1 { return HalfWritten; }
        data := plan;
        return Applied;
      }
      var written := WrittenToTables(plan);
      if written.None? { return RolledBack; }
      data := written.value;
      return Applied;
    }
  }
}
