/**
  Refresh-token rotation as a machine over three tables: what one request does, and what holds over every run of
  requests and restarts. A request that cannot be saved changes nothing; the server that works towards this with
  bookkeeping and roll-back is in AuthorizationServer.
 */
module RefreshTokens {
  import opened Results

  /** Tokens are random strings compared as strings; only their total order is used. */
  type Token = nat
  type Grant = nat

  const ACCESS_TTL := 12 * 3600 * 1000
  const REFRESH_TTL := 30 * 86400 * 1000
  const REPLAY_GRACE := 15 * 60 * 1000

  datatype Record = Record(client: string, scope: string, resource: string, grant: Grant, expiresAt: int)

  datatype Body = Body(access: Token, refresh: Token, scope: string)

  datatype Replay = Replay(until: int, body: Body)

  datatype Used = Used(client: string, resource: string, grant: Grant, expiresAt: int, replay: Option<Replay>)

  datatype Tables = Tables(access: map<Token, Record>, refresh: map<Token, Record>, used: map<Token, Used>)

  const EMPTY := Tables(map[], map[], map[])

  function LiveRecords(m: map<Token, Record>, t: int): map<Token, Record> {
    map k | k in m && m[k].expiresAt > t :: m[k]
  }

  function LiveUsed(m: map<Token, Used>, t: int): map<Token, Used> {
    map k | k in m && m[k].expiresAt > t :: m[k]
  }

  /** What cleaning up at time `t` keeps; also what loading the tables at time `t` reads. */
  function Live(s: Tables, t: int): Tables {
    Tables(LiveRecords(s.access, t), LiveRecords(s.refresh, t), LiveUsed(s.used, t))
  }

  datatype Config = Config(resource: string, aliases: set<string>)

  function Canonical(c: Config, given: string): string {
    if given != "" && (given == c.resource || given in c.aliases) then c.resource else ""
  }

  predicate ResourceOk(c: Config, given: string, recorded: string) {
    Canonical(c, given) != "" && Canonical(c, given) == recorded
  }

  datatype Request =
    | Redeem(client: string, scope: string, resource: string)      // a code that passed every check
    | Exchange(token: Token, client: string, given: string)        // grant_type=refresh_token
    | Revoke(token: Token, client: string)

  /** Clock, whether saving succeeds, and the random values drawn. */
  datatype Env = Env(now: int, saves: bool, access: Token, refresh: Token, grant: Grant)

  datatype Response = Granted(body: Body) | InvalidGrant | InvalidTarget | InvalidClient | ServerError | Acknowledged

  datatype Outcome = Outcome(tables: Tables, response: Response)

  function NewBody(e: Env, scope: string): Body { Body(e.access, e.refresh, scope) }

  function Mint(s: Tables, client: string, scope: string, resource: string, grant: Grant, e: Env): Tables {
    s.(access := s.access[e.access := Record(client, scope, resource, grant, e.now + ACCESS_TTL)],
       refresh := s.refresh[e.refresh := Record(client, scope, resource, grant, e.now + REFRESH_TTL)])
  }

  /** The presented token is retired with its answer, and its successor is minted. */
  function Rotate(s: Tables, token: Token, e: Env): Tables
    requires token in s.refresh
  {
    var r := s.refresh[token];
    Mint(Retire(s, token, e), r.client, r.scope, r.resource, r.grant, e)
  }

  function Retired(r: Record, e: Env): Used {
    Used(r.client, r.resource, r.grant, r.expiresAt, Some(Replay(e.now + REPLAY_GRACE, NewBody(e, r.scope))))
  }

  function Retire(s: Tables, token: Token, e: Env): Tables
    requires token in s.refresh
  {
    s.(refresh := s.refresh - {token}, used := s.used[token := Retired(s.refresh[token], e)])
  }

  function WithoutRefreshOf(s: Tables, g: Grant): Tables {
    s.(refresh := map k | k in s.refresh && s.refresh[k].grant != g :: s.refresh[k])
  }

  function WithoutGrant(s: Tables, g: Grant): Tables {
    Tables(map k | k in s.access && s.access[k].grant != g :: s.access[k],
           map k | k in s.refresh && s.refresh[k].grant != g :: s.refresh[k],
           map k | k in s.used && s.used[k].grant != g :: s.used[k])
  }

  predicate Replays(c: Config, u: Used, given: string, now: int) {
    u.replay.Some? && u.replay.value.until >= now && ResourceOk(c, given, u.resource)
  }

  function ServeExchange(c: Config, s: Tables, token: Token, client: string, given: string, e: Env): Outcome {
    if client != "" && token in s.refresh && s.refresh[token].client == client then
      var r := s.refresh[token];
      if !ResourceOk(c, if given == "" then r.resource else given, r.resource) then Outcome(s, InvalidTarget)
      else if !e.saves then Outcome(s, ServerError)
      else Outcome(Rotate(s, token, e), Granted(NewBody(e, r.scope)))
    else if client != "" && token in s.used && s.used[token].client == client then
      var u := s.used[token];
      if Replays(c, u, given, e.now) then Outcome(s, Granted(u.replay.value.body))
      else Outcome(if e.saves then WithoutRefreshOf(s, u.grant) else s, InvalidGrant)
    else Outcome(s, InvalidGrant)
  }

  /** The grant a presented token belongs to, looked up as access, refresh, then used token of this client. */
  function Owned(s: Tables, token: Token, client: string): Option<Grant> {
    if token in s.access then if s.access[token].client == client then Some(s.access[token].grant) else None
    else if token in s.refresh then if s.refresh[token].client == client then Some(s.refresh[token].grant) else None
    else if token in s.used && s.used[token].client == client then Some(s.used[token].grant)
    else None
  }

  function ServeRevoke(s: Tables, token: Token, client: string, e: Env): Outcome {
    if client == "" then Outcome(s, InvalidClient)
    else
      var g := Owned(s, token, client);
      if g.None? then Outcome(s, Acknowledged)
      else if e.saves then Outcome(WithoutGrant(s, g.value), Acknowledged)
      else Outcome(s, ServerError)
  }

  function Serve(c: Config, s: Tables, request: Request, e: Env): Outcome {
    match request
    case Redeem(client, scope, resource) =>
      if e.saves then Outcome(Mint(Live(s, e.now), client, scope, resource, e.grant, e), Granted(NewBody(e, scope)))
      else Outcome(Live(s, e.now), ServerError)
    case Exchange(token, client, given) => ServeExchange(c, Live(s, e.now), token, client, given, e)
    case Revoke(token, client) => ServeRevoke(s, token, client, e)
  }

  // ---------- Runs ----------

  datatype Event = Served(request: Request, env: Env) | Restarted(now: int)

  function After(c: Config, s: Tables, e: Event): Tables {
    match e
    case Served(request, env) => Serve(c, s, request, env).tables
    case Restarted(now) => Live(s, now)
  }

  function Answer(c: Config, s: Tables, e: Event): Response
    requires e.Served?
  {
    Serve(c, s, e.request, e.env).response
  }

  /** The tables along a run that starts with an empty store. */
  ghost predicate IsRun(c: Config, run: seq<Tables>, events: seq<Event>) {
    && |run| == |events| + 1 && run[0] == EMPTY
    && forall i :: 0 <= i < |events| ==> StepAt(c, run, events, i)
  }

  predicate StepAt(c: Config, run: seq<Tables>, events: seq<Event>, i: nat)
    requires i < |events| < |run|
  {
    run[i + 1] == After(c, run[i], events[i])
  }

  predicate Draws(e: Event, t: Token) { e.Served? && (t == e.env.access || t == e.env.refresh) }

  predicate DrawsGrant(e: Event, g: Grant) { e.Served? && g == e.env.grant }

  /** Random values never repeat. */
  ghost predicate NoCollisions(events: seq<Event>) {
    && (forall i :: 0 <= i < |events| && events[i].Served? ==> events[i].env.access != events[i].env.refresh)
    && (forall i, j, t :: 0 <= i < j < |events| && Draws(events[i], t) ==> !Draws(events[j], t))
    && (forall i, j, g :: 0 <= i < j < |events| && DrawsGrant(events[i], g) ==> !DrawsGrant(events[j], g))
  }

  ghost predicate DrawnBefore(events: seq<Event>, k: nat, t: Token) {
    exists i :: 0 <= i < k && i < |events| && Draws(events[i], t)
  }

  ghost predicate GrantBefore(events: seq<Event>, k: nat, g: Grant) {
    exists i :: 0 <= i < k && i < |events| && DrawsGrant(events[i], g)
  }

  // ---------- Families ----------

  /** The successor recorded for a used token. */
  predicate Successor(s: Tables, t: Token, next: Token) {
    t in s.used && s.used[t].replay.Some? && s.used[t].replay.value.body.refresh == next
  }

  /** One unused token per grant, none both used and unused, and successors that are nobody else's and of the same grant. */
  ghost predicate Families(s: Tables) {
    && (forall a, b :: a in s.refresh && b in s.refresh && s.refresh[a].grant == s.refresh[b].grant ==> a == b)
    && (forall a :: a in s.refresh ==> a !in s.used)
    && (forall a, b, n :: Successor(s, a, n) && Successor(s, b, n) ==> a == b)
    && (forall a, n :: Successor(s, a, n) && n in s.refresh ==> s.refresh[n].grant == s.used[a].grant)
    && (forall a, n :: Successor(s, a, n) && n in s.used ==> s.used[n].grant == s.used[a].grant)
  }

  /** Every token and grant in the tables was drawn by an earlier event. */
  ghost predicate Drawn(s: Tables, events: seq<Event>, k: nat) {
    && (forall t :: t in s.access ==> DrawnBefore(events, k, t) && GrantBefore(events, k, s.access[t].grant))
    && (forall t :: t in s.refresh ==> DrawnBefore(events, k, t) && GrantBefore(events, k, s.refresh[t].grant))
    && (forall t :: t in s.used ==> DrawnBefore(events, k, t) && GrantBefore(events, k, s.used[t].grant))
    && (forall t, n :: Successor(s, t, n) ==> DrawnBefore(events, k, n))
  }

  /** The values drawn occur nowhere in the tables. */
  ghost predicate FreshFor(s: Tables, e: Env) {
    && e.access != e.refresh
    && (forall t :: t in s.access ==> t != e.access && s.access[t].grant != e.grant)
    && (forall t :: t in s.refresh ==> t != e.access && t != e.refresh && s.refresh[t].grant != e.grant)
    && (forall t :: t in s.used ==> t != e.refresh && s.used[t].grant != e.grant)
    && (forall t :: !Successor(s, t, e.refresh))
  }

  lemma NeverAgain(events: seq<Event>, k: nat, t: Token, g: Grant)
    requires k < |events| && events[k].Served? && NoCollisions(events)
    ensures DrawnBefore(events, k, t) ==> t != events[k].env.access && t != events[k].env.refresh
    ensures GrantBefore(events, k, g) ==> g != events[k].env.grant
  {
    if DrawnBefore(events, k, t) {
      var i :| 0 <= i < k && Draws(events[i], t);
      assert !Draws(events[k], t);
    }
    if GrantBefore(events, k, g) {
      var i :| 0 <= i < k && DrawsGrant(events[i], g);
      assert !DrawsGrant(events[k], g);
    }
  }

  lemma DrawnMeansFresh(s: Tables, events: seq<Event>, k: nat)
    requires k < |events| && events[k].Served? && NoCollisions(events) && Drawn(s, events, k)
    ensures FreshFor(s, events[k].env)
  {
    var e := events[k].env;
    forall t | t in s.access ensures t != e.access && s.access[t].grant != e.grant {
      NeverAgain(events, k, t, s.access[t].grant);
    }
    forall t | t in s.refresh ensures t != e.access && t != e.refresh && s.refresh[t].grant != e.grant {
      NeverAgain(events, k, t, s.refresh[t].grant);
    }
    forall t | t in s.used ensures t != e.refresh && s.used[t].grant != e.grant {
      NeverAgain(events, k, t, s.used[t].grant);
    }
    forall t ensures !Successor(s, t, e.refresh) { NeverAgain(events, k, e.refresh, e.grant); }
  }

  /** `a` is `b` with some records gone. */
  ghost predicate Fewer(a: Tables, b: Tables) {
    && (forall t :: t in a.access ==> t in b.access && a.access[t] == b.access[t])
    && (forall t :: t in a.refresh ==> t in b.refresh && a.refresh[t] == b.refresh[t])
    && (forall t :: t in a.used ==> t in b.used && a.used[t] == b.used[t])
  }

  lemma FewerKeeps(a: Tables, b: Tables, events: seq<Event>, k: nat)
    requires Fewer(a, b)
    ensures Families(b) ==> Families(a)
    ensures Drawn(b, events, k) ==> Drawn(a, events, k)
  {
    forall t, n | Successor(a, t, n) ensures Successor(b, t, n) { }
  }

  /** Rotation and minting aside, every step only drops records. */
  lemma StepShape(c: Config, s: Tables, event: Event)
    ensures Fewer(After(c, s, event), s) || Mints(c, s, event)
    ensures Fewer(Live(s, EventTime(event)), s)
  {
    if event.Served? {
      match event.request
      case Redeem(_, _, _) =>
      case Exchange(token, client, given) => ExchangeShape(c, Live(s, event.env.now), token, client, given, event.env);
      case Revoke(token, client) => RevokeShape(s, token, client, event.env);
    }
  }

  lemma ExchangeShape(c: Config, s: Tables, token: Token, client: string, given: string, e: Env)
    ensures Fewer(ServeExchange(c, s, token, client, given, e).tables, s)
         || (&& e.saves && client != "" && token in s.refresh && s.refresh[token].client == client
             && ResourceOk(c, if given == "" then s.refresh[token].resource else given, s.refresh[token].resource))
  {
  }

  lemma RevokeShape(s: Tables, token: Token, client: string, e: Env)
    ensures Fewer(ServeRevoke(s, token, client, e).tables, s)
  {
  }

  function EventTime(event: Event): int { match event case Served(_, e) => e.now case Restarted(now) => now }

  /** The event hands out new tokens: a redeemed code, or the exchange of an unused refresh token. */
  predicate Mints(c: Config, s: Tables, event: Event) {
    && event.Served? && event.env.saves
    && match event.request
       case Redeem(client, scope, resource) => true
       case Exchange(token, client, given) =>
         var live := Live(s, event.env.now);
         && client != "" && token in live.refresh && live.refresh[token].client == client
         && ResourceOk(c, if given == "" then live.refresh[token].resource else given, live.refresh[token].resource)
       case Revoke(_, _) => false
  }

  lemma RotateFamilies(s: Tables, token: Token, e: Env)
    requires Families(s) && token in s.refresh && FreshFor(s, e)
    ensures Families(Rotate(s, token, e))
  {
    var after := Rotate(s, token, e);
    forall a, n | Successor(after, a, n) ensures if a == token then n == e.refresh else Successor(s, a, n) { }
  }

  lemma MintFamilies(s: Tables, client: string, scope: string, resource: string, e: Env)
    requires Families(s) && FreshFor(s, e)
    ensures Families(Mint(s, client, scope, resource, e.grant, e))
  {
    forall a, n | Successor(Mint(s, client, scope, resource, e.grant, e), a, n) ensures Successor(s, a, n) { }
  }

  lemma StepFamilies(c: Config, s: Tables, events: seq<Event>, k: nat)
    requires k < |events| && NoCollisions(events) && Families(s) && Drawn(s, events, k)
    ensures Families(After(c, s, events[k]))
  {
    var event := events[k];
    StepShape(c, s, event);
    if !Mints(c, s, event) {
      FewerKeeps(After(c, s, event), s, events, k);
    } else {
      var live := Live(s, event.env.now);
      FewerKeeps(live, s, events, k);
      DrawnMeansFresh(live, events, k);
      match event.request
      case Redeem(client, scope, resource) => MintFamilies(live, client, scope, resource, event.env);
      case Exchange(token, client, given) => RotateFamilies(live, token, event.env);
    }
  }

  lemma DrawnLater(s: Tables, events: seq<Event>, k: nat)
    requires Drawn(s, events, k)
    ensures Drawn(s, events, k + 1)
  {
  }

  lemma EventDraws(events: seq<Event>, k: nat)
    requires k < |events| && events[k].Served?
    ensures var e := events[k].env;
      DrawnBefore(events, k + 1, e.access) && DrawnBefore(events, k + 1, e.refresh) && GrantBefore(events, k + 1, e.grant)
  {
    assert Draws(events[k], events[k].env.access) && Draws(events[k], events[k].env.refresh);
    assert DrawsGrant(events[k], events[k].env.grant);
  }

  lemma StepDrawn(c: Config, s: Tables, events: seq<Event>, k: nat)
    requires k < |events| && Drawn(s, events, k)
    ensures Drawn(After(c, s, events[k]), events, k + 1)
  {
    var event := events[k];
    StepShape(c, s, event);
    DrawnLater(s, events, k);
    if !Mints(c, s, event) {
      FewerKeeps(After(c, s, event), s, events, k + 1);
    } else {
      var e := event.env;
      var live := Live(s, e.now);
      FewerKeeps(live, s, events, k + 1);
      EventDraws(events, k);
      match event.request
      case Redeem(client, scope, resource) => MintDrawn(live, client, scope, resource, e.grant, e, events, k);
      case Exchange(token, client, given) => RotateDrawn(live, token, e, events, k);
    }
  }

  lemma RotateDrawn(s: Tables, token: Token, e: Env, events: seq<Event>, k: nat)
    requires Drawn(s, events, k + 1) && token in s.refresh
    requires DrawnBefore(events, k + 1, e.access) && DrawnBefore(events, k + 1, e.refresh)
    ensures Drawn(Rotate(s, token, e), events, k + 1)
  {
    var r := s.refresh[token];
    RetireDrawn(s, token, e, events, k);
    MintDrawn(Retire(s, token, e), r.client, r.scope, r.resource, r.grant, e, events, k);
  }

  lemma RetireDrawn(s: Tables, token: Token, e: Env, events: seq<Event>, k: nat)
    requires Drawn(s, events, k + 1) && token in s.refresh && DrawnBefore(events, k + 1, e.refresh)
    ensures Drawn(Retire(s, token, e), events, k + 1)
  {
    forall t, n | Successor(Retire(s, token, e), t, n) ensures DrawnBefore(events, k + 1, n) {
      if t != token { assert Successor(s, t, n); }
    }
  }

  lemma MintDrawn(s: Tables, client: string, scope: string, resource: string, g: Grant, e: Env, events: seq<Event>, k: nat)
    requires Drawn(s, events, k + 1) && DrawnBefore(events, k + 1, e.access) && DrawnBefore(events, k + 1, e.refresh)
    requires GrantBefore(events, k + 1, g)
    ensures Drawn(Mint(s, client, scope, resource, g, e), events, k + 1)
  {
    forall t, n | Successor(Mint(s, client, scope, resource, g, e), t, n) ensures Successor(s, t, n) { }
  }

  /** Every reachable store consists of well-formed families, whatever fails to save and whenever the server restarts. */
  lemma {:induction false} RunKeepsFamilies(c: Config, run: seq<Tables>, events: seq<Event>, k: nat)
    requires IsRun(c, run, events) && NoCollisions(events) && k <= |events|
    ensures Sound(run[k], events, k)
  {
    if k == 0 {
      NothingSound(events);
    } else {
      hide Sound, After, NoCollisions;
      RunKeepsFamilies(c, run, events, k - 1);
      assert StepAt(c, run, events, k - 1);
      StepSound(c, run[k - 1], run[k], events, k - 1);
    }
  }

  lemma NothingSound(events: seq<Event>)
    ensures Sound(EMPTY, events, 0)
  {
  }

  ghost predicate Sound(s: Tables, events: seq<Event>, k: nat) { Families(s) && Drawn(s, events, k) }

  lemma StepSound(c: Config, s: Tables, after: Tables, events: seq<Event>, k: nat)
    requires k < |events| && NoCollisions(events) && Sound(s, events, k) && after == After(c, s, events[k])
    ensures Sound(after, events, k + 1)
  {
    StepFamilies(c, s, events, k);
    StepDrawn(c, s, events, k);
  }

  // ---------- One chain per grant ----------

  ghost predicate Monotone(events: seq<Event>) {
    forall i, j :: 0 <= i <= j < |events| ==> EventTime(events[i]) <= EventTime(events[j])
  }

  /** Each used token of the grant, once. */
  ghost predicate Lists(s: Tables, g: Grant, chain: seq<Token>) {
    && (forall i, j :: 0 <= i < j < |chain| ==> chain[i] != chain[j])
    && (forall t :: t in chain <==> t in s.used && s.used[t].grant == g)
  }

  /** Each was answered with the next, and they expire in this order. */
  ghost predicate Linked(s: Tables, chain: seq<Token>) {
    && (forall i :: 0 <= i < |chain| ==> chain[i] in s.used)
    && (forall i :: 0 <= i < |chain| - 1 ==> Successor(s, chain[i], chain[i + 1]))
    && (forall i, j :: 0 <= i <= j < |chain| ==> s.used[chain[i]].expiresAt <= s.used[chain[j]].expiresAt)
  }

  /** The last was answered with the unused token, if there is one. */
  ghost predicate EndsUnused(s: Tables, g: Grant, chain: seq<Token>) {
    forall t :: t in s.refresh && s.refresh[t].grant == g && chain != [] ==>
      var last := chain[|chain| - 1];
      Successor(s, last, t) && s.used[last].expiresAt <= s.refresh[t].expiresAt
  }

  /** The used tokens of the grant in the order in which they were used, up to the unused one. */
  ghost predicate Chain(s: Tables, g: Grant, chain: seq<Token>) {
    Lists(s, g, chain) && Linked(s, chain) && EndsUnused(s, g, chain)
  }

  ghost predicate OneChain(s: Tables, g: Grant) { exists chain :: Chain(s, g, chain) }

  /** No unused token outlives one minted now. */
  ghost predicate Young(s: Tables, now: int) {
    forall t :: t in s.refresh ==> s.refresh[t].expiresAt <= now + REFRESH_TTL
  }

  /** Expired records are the first ones of the chain. */
  lemma {:induction false} FirstLive(s: Tables, chain: seq<Token>, now: int, n: nat) returns (k: nat)
    requires n <= |chain| && forall i :: 0 <= i < |chain| ==> chain[i] in s.used
    requires forall i, j :: 0 <= i <= j < |chain| ==> s.used[chain[i]].expiresAt <= s.used[chain[j]].expiresAt
    requires forall i :: 0 <= i < n ==> s.used[chain[i]].expiresAt <= now
    ensures k <= |chain| && forall i :: 0 <= i < |chain| ==> (i < k <==> s.used[chain[i]].expiresAt <= now)
    decreases |chain| - n
  {
    if n == |chain| || s.used[chain[n]].expiresAt > now { k := n; } else { k := FirstLive(s, chain, now, n + 1); }
  }

  lemma LiveChain(s: Tables, g: Grant, now: int)
    requires OneChain(s, g)
    ensures OneChain(Live(s, now), g)
  {
    var chain :| Chain(s, g, chain);
    var k := FirstLive(s, chain, now, 0);
    LiveLists(s, g, chain, now, k);
    LiveLinked(s, chain, now, k);
    assert EndsUnused(Live(s, now), g, chain[k..]);
    assert Chain(Live(s, now), g, chain[k..]);
  }

  lemma LiveLists(s: Tables, g: Grant, chain: seq<Token>, now: int, k: nat)
    requires Lists(s, g, chain) && k <= |chain|
    requires forall i :: 0 <= i < |chain| ==> chain[i] in s.used && (i < k <==> s.used[chain[i]].expiresAt <= now)
    ensures Lists(Live(s, now), g, chain[k..])
  {
    var live, rest := Live(s, now), chain[k..];
    forall t ensures t in rest <==> t in live.used && live.used[t].grant == g {
      if t in live.used && live.used[t].grant == g {
        var i :| 0 <= i < |chain| && chain[i] == t;
        assert t == rest[i - k];
      }
    }
  }

  lemma LiveLinked(s: Tables, chain: seq<Token>, now: int, k: nat)
    requires Linked(s, chain) && k <= |chain|
    requires forall i :: 0 <= i < |chain| ==> (i < k <==> s.used[chain[i]].expiresAt <= now)
    ensures Linked(Live(s, now), chain[k..])
  {
    var live, rest := Live(s, now), chain[k..];
    forall i | 0 <= i < |rest| ensures rest[i] in live.used && (i < |rest| - 1 ==> Successor(live, rest[i], rest[i + 1])) {
      assert rest[i] == chain[k + i] && (i < |rest| - 1 ==> Successor(s, chain[k + i], chain[k + i + 1]));
    }
  }

  lemma RetireChain(s: Tables, token: Token, e: Env, g: Grant)
    requires OneChain(s, g) && Families(s) && FreshFor(s, e) && Young(s, e.now) && token in s.refresh
    ensures OneChain(Rotate(s, token, e), g)
  {
    var chain :| Chain(s, g, chain);
    if s.refresh[token].grant != g {
      assert token !in s.used;
      OtherRotated(s, token, e, g, chain);
    } else {
      LongerLists(s, token, e, chain);
      LongerLinked(s, token, e, chain);
      assert Chain(Rotate(s, token, e), g, chain + [token]);
    }
  }

  lemma OtherRotated(s: Tables, token: Token, e: Env, g: Grant, chain: seq<Token>)
    requires Chain(s, g, chain) && token in s.refresh && token !in s.used && s.refresh[token].grant != g
    ensures OneChain(Rotate(s, token, e), g)
  {
    assert token !in chain;
    assert Linked(Rotate(s, token, e), chain);
    assert Chain(Rotate(s, token, e), g, chain);
  }

  lemma LongerLists(s: Tables, token: Token, e: Env, chain: seq<Token>)
    requires token in s.refresh && token !in s.used && Lists(s, s.refresh[token].grant, chain)
    ensures Lists(Rotate(s, token, e), s.refresh[token].grant, chain + [token])
  {
    assert token !in chain;
    assert Rotate(s, token, e).used == s.used[token := Retired(s.refresh[token], e)];
  }

  lemma LongerLinked(s: Tables, token: Token, e: Env, chain: seq<Token>)
    requires Families(s) && Young(s, e.now) && token in s.refresh
    requires Linked(s, chain) && EndsUnused(s, s.refresh[token].grant, chain)
    ensures Linked(Rotate(s, token, e), chain + [token])
    ensures EndsUnused(Rotate(s, token, e), s.refresh[token].grant, chain + [token])
  {
    var after, longer := Rotate(s, token, e), chain + [token];
    assert after.used == s.used[token := Retired(s.refresh[token], e)];
    forall i | 0 <= i < |longer| - 1 ensures Successor(after, longer[i], longer[i + 1]) {
      if i < |chain| - 1 { assert Successor(s, chain[i], chain[i + 1]); }
    }
    forall t | t in after.refresh && after.refresh[t].grant == s.refresh[token].grant ensures t == e.refresh {
      assert t != e.refresh ==> t in s.refresh && t != token;
    }
  }

  lemma MintChain(s: Tables, client: string, scope: string, resource: string, e: Env, g: Grant)
    requires OneChain(s, g) && FreshFor(s, e)
    ensures OneChain(Mint(s, client, scope, resource, e.grant, e), g)
  {
    var chain :| Chain(s, g, chain);
    assert chain == [] || chain[0] in chain;
    assert Linked(Mint(s, client, scope, resource, e.grant, e), chain);
    assert Chain(Mint(s, client, scope, resource, e.grant, e), g, chain);
  }

  /** Records of the grant go all together, or only its unused token goes. */
  lemma FewerChain(a: Tables, b: Tables, g: Grant)
    requires Fewer(a, b) && OneChain(b, g) && (a.used == b.used || forall t :: t in a.used ==> a.used[t].grant != g)
    ensures OneChain(a, g)
  {
    var chain :| Chain(b, g, chain);
    if a.used == b.used { assert Chain(a, g, chain); } else { assert Chain(a, g, []); }
  }

  lemma RevokeChain(s: Tables, token: Token, client: string, e: Env, g: Grant)
    requires OneChain(s, g)
    ensures OneChain(ServeRevoke(s, token, client, e).tables, g)
  {
    var owned := Owned(s, token, client);
    if client != "" && owned.Some? && e.saves {
      RevokeShape(s, token, client, e);
      if owned.value == g {
        FewerChain(WithoutGrant(s, g), s, g);
      } else {
        OtherGrantChain(s, owned.value, g);
      }
    }
  }

  lemma OtherGrantChain(s: Tables, other: Grant, g: Grant)
    requires OneChain(s, g) && other != g
    ensures OneChain(WithoutGrant(s, other), g)
  {
    var chain :| Chain(s, g, chain);
    assert forall i :: 0 <= i < |chain| ==> chain[i] in chain;
    assert Chain(WithoutGrant(s, other), g, chain);
  }

  lemma ExchangeChain(c: Config, s: Tables, token: Token, client: string, given: string, e: Env, g: Grant)
    requires OneChain(s, g) && Families(s) && FreshFor(s, e) && Young(s, e.now)
    ensures OneChain(ServeExchange(c, s, token, client, given, e).tables, g)
  {
    var after := ServeExchange(c, s, token, client, given, e).tables;
    ExchangeShape(c, s, token, client, given, e);
    if token in s.refresh && after == Rotate(s, token, e) {
      RetireChain(s, token, e, g);
    } else {
      FewerChain(after, s, g);
    }
  }

  lemma StepChain(c: Config, s: Tables, events: seq<Event>, k: nat, g: Grant)
    requires k < |events| && NoCollisions(events) && Sound(s, events, k) && OneChain(s, g) && Young(s, EventTime(events[k]))
    ensures OneChain(After(c, s, events[k]), g)
  {
    var event := events[k];
    LiveChain(s, g, EventTime(event));
    if event.Served? {
      var e, live := event.env, Live(s, event.env.now);
      FewerKeeps(live, s, events, k);
      DrawnMeansFresh(live, events, k);
      match event.request
      case Redeem(client, scope, resource) => MintChain(live, client, scope, resource, e, g);
      case Exchange(token, client, given) => ExchangeChain(c, live, token, client, given, e, g);
      case Revoke(token, client) => RevokeChain(s, token, client, e, g);
    }
  }

  lemma StepYoung(c: Config, s: Tables, event: Event)
    requires Young(s, EventTime(event))
    ensures Young(After(c, s, event), EventTime(event))
  {
    StepShape(c, s, event);
  }

  /**
    In every run, whatever fails to save and whenever the server restarts, the refresh tokens of each grant form one
    chain: all used ones, each answered with the next, and at its end the unused one, if there is one.
   */
  lemma {:induction false} RunKeepsChains(c: Config, run: seq<Tables>, events: seq<Event>, k: nat, g: Grant)
    requires IsRun(c, run, events) && NoCollisions(events) && Monotone(events) && k <= |events|
    ensures OneChain(run[k], g)
    ensures k > 0 ==> Young(run[k], EventTime(events[k - 1]))
    ensures forall a, b :: a in run[k].refresh && b in run[k].refresh && run[k].refresh[a].grant == run[k].refresh[b].grant == g ==> a == b
  {
    RunKeepsFamilies(c, run, events, k);
    if k == 0 {
      assert Chain(EMPTY, g, []);
    } else {
      RunKeepsChains(c, run, events, k - 1, g);
      RunKeepsFamilies(c, run, events, k - 1);
      assert StepAt(c, run, events, k - 1);
      assert Young(run[k - 1], EventTime(events[k - 1]));
      StepChain(c, run[k - 1], events, k - 1, g);
      StepYoung(c, run[k - 1], events[k - 1]);
    }
  }

  // ---------- One body per token ----------

  predicate Exchanges(e: Event, t: Token) { e.Served? && e.request.Exchange? && e.request.token == t }

  /** The token is not unused, and if it is remembered as used then with this answer. */
  predicate Spent(s: Tables, t: Token, body: Body) {
    t !in s.refresh && (t in s.used ==> s.used[t].replay.Some? && s.used[t].replay.value.body == body)
  }

  lemma ExchangeSpends(c: Config, s: Tables, e: Event, t: Token)
    requires Exchanges(e, t) && Answer(c, s, e).Granted? && Families(s) && t != e.env.refresh
    ensures Spent(After(c, s, e), t, Answer(c, s, e).body)
  {
  }

  lemma SpentStays(c: Config, s: Tables, e: Event, t: Token, body: Body)
    requires Spent(s, t, body) && !Draws(e, t)
    ensures Spent(After(c, s, e), t, body)
    ensures Exchanges(e, t) && Answer(c, s, e).Granted? ==> Answer(c, s, e).body == body
  {
  }

  lemma {:induction false} SpentAlong(c: Config, run: seq<Tables>, events: seq<Event>, i: nat, j: nat, t: Token, body: Body)
    requires IsRun(c, run, events) && NoCollisions(events) && i <= j <= |events|
    requires DrawnBefore(events, i, t) && Spent(run[i], t, body)
    ensures Spent(run[j], t, body)
  {
    if i < j {
      SpentAlong(c, run, events, i, j - 1, t, body);
      assert StepAt(c, run, events, j - 1);
      DrawnEarlier(events, i, j - 1, t);
      SpentStays(c, run[j - 1], events[j - 1], t, body);
    }
  }

  lemma DrawnEarlier(events: seq<Event>, i: nat, m: nat, t: Token)
    requires NoCollisions(events) && i <= m < |events| && DrawnBefore(events, i, t)
    ensures !Draws(events[m], t)
  {
    var k :| 0 <= k < i && Draws(events[k], t);
  }

  /** Over a whole run, whatever fails and restarts, all successful exchanges of one token answer the same body. */
  lemma OneBodyPerToken(c: Config, run: seq<Tables>, events: seq<Event>, i: nat, j: nat, t: Token)
    requires IsRun(c, run, events) && NoCollisions(events) && i < j < |events|
    requires Exchanges(events[i], t) && Exchanges(events[j], t)
    requires Answer(c, run[i], events[i]).Granted? && Answer(c, run[j], events[j]).Granted?
    ensures Answer(c, run[i], events[i]) == Answer(c, run[j], events[j])
  {
    var body := Answer(c, run[i], events[i]).body;
    SpentAfterwards(c, run, events, i, t);
    SpentAlong(c, run, events, i + 1, j, t, body);
    DrawnEarlier(events, i + 1, j, t);
    SpentStays(c, run[j], events[j], t, body);
  }

  lemma SpentAfterwards(c: Config, run: seq<Tables>, events: seq<Event>, i: nat, t: Token)
    requires IsRun(c, run, events) && NoCollisions(events) && i < |events|
    requires Exchanges(events[i], t) && Answer(c, run[i], events[i]).Granted?
    ensures DrawnBefore(events, i + 1, t) && Spent(run[i + 1], t, Answer(c, run[i], events[i]).body)
  {
    RunKeepsFamilies(c, run, events, i);
    assert StepAt(c, run, events, i);
    Presented(c, run[i], events[i], t);
    assert DrawnBefore(events, i, t);
    DrawnEarlier(events, i, i, t);
    ExchangeSpends(c, run[i], events[i], t);
    DrawnLonger(events, i, t);
  }

  lemma Presented(c: Config, s: Tables, e: Event, t: Token)
    requires Exchanges(e, t) && Answer(c, s, e).Granted?
    ensures t in s.refresh || t in s.used
  {
  }

  lemma DrawnLonger(events: seq<Event>, i: nat, t: Token)
    requires DrawnBefore(events, i, t)
    ensures DrawnBefore(events, i + 1, t)
  {
  }

  // ---------- The end of a grant ----------

  ghost predicate NoUnused(s: Tables, g: Grant) { forall t :: t in s.refresh ==> s.refresh[t].grant != g }

  /** No table gains a token of the grant. */
  ghost predicate NothingNew(before: Tables, after: Tables, g: Grant) {
    && (forall t :: t in after.access && after.access[t].grant == g ==> t in before.access && after.access[t] == before.access[t])
    && (forall t :: t in after.used && after.used[t].grant == g ==> t in before.used && after.used[t] == before.used[t])
    && (forall t :: t in after.refresh && after.refresh[t].grant == g ==> t in before.refresh)
  }

  ghost predicate Gone(s: Tables, g: Grant) {
    && NoUnused(s, g)
    && (forall t :: t in s.access ==> s.access[t].grant != g) && (forall t :: t in s.used ==> s.used[t].grant != g)
  }

  lemma NoUnusedStays(c: Config, s: Tables, e: Event, g: Grant)
    requires NoUnused(s, g) && !DrawsGrant(e, g)
    ensures NoUnused(After(c, s, e), g) && NothingNew(s, After(c, s, e), g)
    ensures Gone(s, g) ==> Gone(After(c, s, e), g)
  {
    StepShape(c, s, e);
  }

  lemma {:induction false} EndedAlong(c: Config, run: seq<Tables>, events: seq<Event>, i: nat, j: nat, g: Grant)
    requires IsRun(c, run, events) && NoCollisions(events) && i <= j <= |events|
    requires GrantBefore(events, i, g) && NoUnused(run[i], g)
    ensures NoUnused(run[j], g) && NothingNew(run[i], run[j], g)
    ensures Gone(run[i], g) ==> Gone(run[j], g)
  {
    if i < j {
      EndedAlong(c, run, events, i, j - 1, g);
      assert StepAt(c, run, events, j - 1);
      var k :| 0 <= k < i && DrawsGrant(events[k], g);
      assert !DrawsGrant(events[j - 1], g);
      NoUnusedStays(c, run[j - 1], events[j - 1], g);
      StillNothingNew(run[i], run[j - 1], run[j], g);
    }
  }

  lemma StillNothingNew(s0: Tables, s1: Tables, s2: Tables, g: Grant)
    requires NothingNew(s0, s1, g) && NothingNew(s1, s2, g)
    requires NoUnused(s2, g)
    ensures NothingNew(s0, s2, g)
  {
  }

  /** The exchange of a token that was used before and may not be replayed. */
  predicate DetectsReuse(c: Config, s: Tables, e: Event) {
    && e.Served? && e.request.Exchange? && e.request.client != ""
    && var live := Live(s, e.env.now);
       && e.request.token in live.used && live.used[e.request.token].client == e.request.client
       && !Replays(c, live.used[e.request.token], e.request.given, e.env.now)
  }

  /**
    Once reuse was detected and that was saved, no refresh token of the grant exists any more and nothing new is ever
    handed out for the grant, restarts included.
   */
  lemma ReuseEndsTheGrant(c: Config, run: seq<Tables>, events: seq<Event>, i: nat, j: nat)
    requires IsRun(c, run, events) && NoCollisions(events) && i < j <= |events|
    requires DetectsReuse(c, run[i], events[i]) && events[i].env.saves
    ensures Answer(c, run[i], events[i]) == InvalidGrant
    ensures var g := run[i].used[events[i].request.token].grant; NoUnused(run[j], g) && NothingNew(run[i], run[j], g)
  {
    RunKeepsFamilies(c, run, events, i);
    assert StepAt(c, run, events, i);
    var g := run[i].used[events[i].request.token].grant;
    GrantLonger(events, i, g);
    StepShape(c, run[i], events[i]);
    EndedAlong(c, run, events, i + 1, j, g);
  }

  lemma GrantLonger(events: seq<Event>, i: nat, g: Grant)
    requires GrantBefore(events, i, g)
    ensures GrantBefore(events, i + 1, g)
  {
  }

  /** After a saved revocation the grant is gone from every table for good. */
  lemma RevocationEndsTheGrant(c: Config, run: seq<Tables>, events: seq<Event>, i: nat, j: nat)
    requires IsRun(c, run, events) && NoCollisions(events) && i < j <= |events|
    requires events[i].Served? && events[i].request.Revoke? && events[i].request.client != "" && events[i].env.saves
    requires Owned(run[i], events[i].request.token, events[i].request.client).Some?
    ensures Gone(run[j], Owned(run[i], events[i].request.token, events[i].request.client).value)
  {
    RunKeepsFamilies(c, run, events, i);
    assert StepAt(c, run, events, i);
    var g := Owned(run[i], events[i].request.token, events[i].request.client).value;
    GrantLonger(events, i, g);
    EndedAlong(c, run, events, i + 1, j, g);
  }

  // ---------- The replay window ----------

  /** The event revokes the grant and that is saved. */
  predicate RevokesGrant(c: Config, s: Tables, e: Event, g: Grant) {
    && e.Served? && e.request.Revoke? && e.request.client != "" && e.env.saves
    && Owned(s, e.request.token, e.request.client) == Some(g)
  }

  predicate RotatesAt(c: Config, s: Tables, e: Event) { Mints(c, s, e) && e.request.Exchange? }

  lemma UsedStays(c: Config, s: Tables, e: Event, t: Token)
    requires t in s.used && t !in s.refresh && !RevokesGrant(c, s, e, s.used[t].grant)
    ensures if EventTime(e) < s.used[t].expiresAt || (e.Served? && e.request.Revoke?)
      then t in After(c, s, e).used && After(c, s, e).used[t] == s.used[t]
      else t !in After(c, s, e).used
  {
  }

  lemma {:induction false} UsedAlong(c: Config, run: seq<Tables>, events: seq<Event>, i: nat, j: nat, t: Token, u: Used)
    requires IsRun(c, run, events) && NoCollisions(events) && i <= j <= |events| && DrawnBefore(events, i, t)
    requires t in run[i].used && run[i].used[t] == u && t !in run[i].refresh
    requires forall m :: i <= m < j ==> !RevokesGrant(c, run[m], events[m], u.grant)
    requires forall m :: i <= m < j ==> EventTime(events[m]) < u.expiresAt
    ensures t in run[j].used && run[j].used[t] == u && t !in run[j].refresh
  {
    if i < j {
      UsedAlong(c, run, events, i, j - 1, t, u);
      assert StepAt(c, run, events, j - 1);
      DrawnEarlier(events, i, j - 1, t);
      UsedStays(c, run[j - 1], events[j - 1], t);
      StaysOut(c, run[j - 1], events[j - 1], t);
    }
  }

  lemma StaysOut(c: Config, s: Tables, e: Event, t: Token)
    requires t !in s.refresh && !Draws(e, t)
    ensures t !in After(c, s, e).refresh
  {
  }

  lemma RetiredAfterwards(c: Config, run: seq<Tables>, events: seq<Event>, i: nat)
    requires IsRun(c, run, events) && NoCollisions(events) && i < |events| && RotatesAt(c, run[i], events[i])
    ensures var t, r := events[i].request.token, run[i].refresh[events[i].request.token];
      && DrawnBefore(events, i + 1, t) && t in run[i + 1].used && run[i + 1].used[t] == Retired(r, events[i].env)
      && t !in run[i + 1].refresh && r.client != ""
      && Answer(c, run[i], events[i]) == Granted(NewBody(events[i].env, r.scope))
  {
    var t := events[i].request.token;
    RunKeepsFamilies(c, run, events, i);
    assert StepAt(c, run, events, i);
    DrawnEarlier(events, i, i, t);
    RotationRetires(c, run[i], events[i]);
    DrawnLonger(events, i, t);
  }

  lemma RotationRetires(c: Config, s: Tables, e: Event)
    requires RotatesAt(c, s, e) && e.request.token != e.env.refresh
    ensures var t, r := e.request.token, s.refresh[e.request.token];
      && t in After(c, s, e).used && After(c, s, e).used[t] == Retired(r, e.env) && t !in After(c, s, e).refresh
      && r.expiresAt > e.env.now
  {
  }

  /**
    Exactly when a rotated token is answered again: until the window ends or the token itself would have expired, and
    only when the resource is named. Successors may have been rotated and the server restarted in between.
   */
  lemma ReplaysExactly(c: Config, run: seq<Tables>, events: seq<Event>, i: nat, j: nat)
    requires IsRun(c, run, events) && NoCollisions(events) && Monotone(events) && i < j < |events|
    requires RotatesAt(c, run[i], events[i]) && Exchanges(events[j], events[i].request.token)
    requires var r := run[i].refresh[events[i].request.token];
      events[j].request.client == r.client && forall m :: i < m < j ==> !RevokesGrant(c, run[m], events[m], r.grant)
    ensures var r, now := run[i].refresh[events[i].request.token], events[j].env.now;
      Answer(c, run[j], events[j])
      == if now <= events[i].env.now + REPLAY_GRACE && now < r.expiresAt && ResourceOk(c, events[j].request.given, r.resource)
         then Answer(c, run[i], events[i]) else InvalidGrant
  {
    var t, r := events[i].request.token, run[i].refresh[events[i].request.token];
    var u := Retired(r, events[i].env);
    RetiredAfterwards(c, run, events, i);
    UsedOnlyAs(c, run, events, i + 1, j, t, u);
    if events[j].env.now < r.expiresAt { UsedAlong(c, run, events, i + 1, j, t, u); }
    UsedAnswers(c, run[j], events[j], u);
  }

  lemma UsedAnswers(c: Config, s: Tables, e: Event, u: Used)
    requires e.Served? && e.request.Exchange? && e.request.client == u.client && u.replay.Some?
    requires e.request.token !in s.refresh && (e.request.token in s.used ==> s.used[e.request.token] == u)
    requires e.env.now < u.expiresAt ==> e.request.token in s.used
    requires u.client != ""
    ensures Answer(c, s, e)
         == if e.env.now < u.expiresAt && Replays(c, u, e.request.given, e.env.now) then Granted(u.replay.value.body)
            else InvalidGrant
  {
  }

  /** A token once retired is never remembered with other data. */
  lemma {:induction false} UsedOnlyAs(c: Config, run: seq<Tables>, events: seq<Event>, i: nat, j: nat, t: Token, u: Used)
    requires IsRun(c, run, events) && NoCollisions(events) && i <= j <= |events| && DrawnBefore(events, i, t)
    requires (t in run[i].used ==> run[i].used[t] == u) && t !in run[i].refresh
    ensures (t in run[j].used ==> run[j].used[t] == u) && t !in run[j].refresh
  {
    if i < j {
      UsedOnlyAs(c, run, events, i, j - 1, t, u);
      assert StepAt(c, run, events, j - 1);
      DrawnEarlier(events, i, j - 1, t);
      StaysOut(c, run[j - 1], events[j - 1], t);
      StepShape(c, run[j - 1], events[j - 1]);
    }
  }

  // ---------- What reuse detection does not revoke ----------

  predicate AcceptsAccess(s: Tables, t: Token, now: int) { t in Live(s, now).access }

  /**
    The promise that nothing of the grant is accepted once reuse was detected fails: the access tokens of the grant stay,
    and so does the stored answer of another used token whose window is still open.
   */
  lemma ReuseLeavesAccess(c: Config, s: Tables, e: Event, t: Token, later: Event)
    requires DetectsReuse(c, s, e) && Families(s) && EventTime(e) <= EventTime(later)
    ensures AcceptsAccess(After(c, s, e), t, EventTime(later)) <==> AcceptsAccess(s, t, EventTime(later))
    ensures Exchanges(later, t) && t in s.used ==> Answer(c, After(c, s, e), later) == Answer(c, s, later)
  {
  }

  /** A code, its refresh token exchanged, and the same token again after the grace period. */
  const REUSE: seq<Event> := [
    Served(Redeem("app", "", "api"), Env(0, true, 0, 1, 0)),
    Served(Exchange(1, "app", "api"), Env(1, true, 2, 3, 1)),
    Served(Exchange(1, "app", "api"), Env(2 + REPLAY_GRACE, true, 4, 5, 2))]

  const REUSE_AT := Config("api", {})

  const REDEEMED := Mint(EMPTY, "app", "", "api", 0, REUSE[0].env)

  const EXCHANGED := Rotate(REDEEMED, 1, REUSE[1].env)

  lemma NothingLapses(s: Tables, t: int)
    requires forall k :: k in s.access ==> s.access[k].expiresAt > t
    requires forall k :: k in s.refresh ==> s.refresh[k].expiresAt > t
    requires forall k :: k in s.used ==> s.used[k].expiresAt > t
    ensures Live(s, t) == s
  {
    assert LiveRecords(s.access, t) == s.access && LiveRecords(s.refresh, t) == s.refresh && LiveUsed(s.used, t) == s.used;
  }

  lemma ReuseStarts()
    ensures After(REUSE_AT, EMPTY, REUSE[0]) == REDEEMED && After(REUSE_AT, REDEEMED, REUSE[1]) == EXCHANGED
  {
    NothingLapses(EMPTY, 0);
    NothingLapses(REDEEMED, 1);
  }

  lemma ReuseEnds()
    ensures DetectsReuse(REUSE_AT, EXCHANGED, REUSE[2]) && Answer(REUSE_AT, EXCHANGED, REUSE[2]) == InvalidGrant
    ensures After(REUSE_AT, EXCHANGED, REUSE[2]) == EXCHANGED.(refresh := map[]) && 3 in EXCHANGED.refresh
  {
    NothingLapses(EXCHANGED, 2 + REPLAY_GRACE);
    assert WithoutRefreshOf(EXCHANGED, 0).refresh == map[];
  }

  lemma ReuseDraws()
    ensures NoCollisions(REUSE) && Monotone(REUSE)
  {
  }

  /** The reuse is detected and takes the refresh token away; both access tokens are accepted all the same. */
  lemma AccessOutlivesReuse() returns (run: seq<Tables>)
    ensures IsRun(REUSE_AT, run, REUSE) && NoCollisions(REUSE) && Monotone(REUSE) && DetectsReuse(REUSE_AT, run[2], REUSE[2])
    ensures 3 in run[2].refresh && run[3].refresh == map[] && Answer(REUSE_AT, run[2], REUSE[2]) == InvalidGrant
    ensures AcceptsAccess(run[3], 0, EventTime(REUSE[2])) && AcceptsAccess(run[3], 2, EventTime(REUSE[2]))
  {
    ReuseStarts();
    ReuseEnds();
    ReuseDraws();
    hide After, Answer, DetectsReuse, NoCollisions, Monotone;
    run := [EMPTY, REDEEMED, EXCHANGED, EXCHANGED.(refresh := map[])];
    forall i | 0 <= i < 3 ensures StepAt(REUSE_AT, run, REUSE, i) { assert i == 0 || i == 1 || i == 2; }
  }
}
