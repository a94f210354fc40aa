/**
  The two users of state handles: the multi-round tool-call extension, whose handles are bound to the exact call and
  consumed even by a call that does not match, and the confirmation of a destructive tool, where a mismatch consumes
  nothing.
 */
module Confirmations {
  import opened Results
  import opened CanonicalJson
  import opened StateHandles

  const MRTR_KIND := "mrtr_tools_call_v1"
  const DELETE_KIND := "cbm_delete_project_confirmation"
  const DELETE_TOOL := "cbm_delete_project"

  datatype Payload =
    | MrtrPayload(tool: string, arguments: Text, scopes: set<string>, requirement: Text, keys: seq<Text>)
    | DeletePayload(tool: string, project: string)

  type Store = Records<Payload>

  const EMPTY: Store := Records(map[], [])

  /** The state a retry presents: not a string of acceptable length, or a handle. */
  datatype StateToken = Malformed | Token(handle: Handle)

  /**
    One tools/call. `requestKeys` is the outcome of checking the requirement's input requests: their sorted keys, or None
    when one of them is not a form request.
   */
  datatype MrtrCall = MrtrCall(modern: bool, tool: string, args: Option<Json>, who: Identity, requirement: Option<Json>,
                               requestKeys: Option<seq<Text>>, elicits: bool, state: Option<StateToken>, responses: Option<Json>)

  datatype DeleteCall = DeleteCall(tool: string, project: string, confirm: bool, handle: Option<Handle>, who: Identity)

  /** Clock readings (the look-up and the consumption read the clock each), the handle drawn, and the lifetime configured. */
  datatype Env = Env(now: int, later: int, handle: Handle, ttl: int)

  datatype Verdict =
    | NotRequired | ProtocolNotSupported | FieldsUnpaired | BindingInvalid | RequestsInvalid | MissingCapability
    | InputRequired(handle: Handle) | StateMalformed | StateRefused(reason: Reason) | BindingMismatch | ResponsesInvalid
    | RetryReady

  datatype DeleteVerdict =
    | UnsupportedTarget | ConfirmationRequired(handle: Handle) | HandleMissing | HandleRefused(reason: Reason)
    | TargetMismatch | Allowed

  function BoundedTtl(ttl: int): int { StateHandles.Max(1000, StateHandles.Min(ttl, 10 * 60 * 1000)) }

  // ---------- Checking responses ----------

  function Units(s: string): Text { seq(|s|, i requires 0 <= i < |s| => if s[i] as int <= 0xFFFF then s[i] as int else 0) }

  function Keys(f: Fields): seq<Text> { if f.NoField? then [] else [f.key] + Keys(f.rest) }

  const ACTION := Units("action")
  const CONTENT := Units("content")

  predicate ResponseOk(r: Json) {
    && r.Obj? && HasKey(r.fields, ACTION)
    && Lookup(r.fields, ACTION).value in {Str(Units("accept")), Str(Units("decline")), Str(Units("cancel"))}
    && (HasKey(r.fields, CONTENT) ==>
          && Lookup(r.fields, ACTION).value == Str(Units("accept"))
          && Lookup(r.fields, CONTENT).value.Obj?
          && CanonicalText(Lookup(r.fields, CONTENT).value, 16 * 1024).Ok?)
  }

  predicate AllResponsesOk(f: Fields) { f.Field? ==> ResponseOk(f.value) && AllResponsesOk(f.rest) }

  predicate ResponsesOk(v: Json, expected: seq<Text>) {
    v.Obj? && Keys(SortKeys(v.fields)) == expected && AllResponsesOk(v.fields)
  }

  // ---------- The multi-round extension ----------

  /** What the handle of this call is bound to. */
  function Binding(call: MrtrCall): Option<Payload> {
    if call.requirement.None? then None
    else
      var arguments, requirement := ArgumentsText(call.args), CanonicalText(call.requirement.value, MAX_BINDING_BYTES);
      if arguments.Err? || requirement.Err? then None
      else Some(MrtrPayload(call.tool, arguments.value, call.who.scopes, requirement.value, if call.requestKeys.Some? then call.requestKeys.value else []))
  }

  predicate Matches(p: Payload, b: Payload) {
    && p.MrtrPayload? && b.MrtrPayload? && p.tool == b.tool && p.arguments == b.arguments && p.scopes == b.scopes
    && p.requirement == b.requirement
  }

  predicate Required(call: MrtrCall) { call.requirement.Some? && !Falsy(call.requirement.value) }

  /** Everything that is decided before the store is used. */
  function Screen(call: MrtrCall): Option<Verdict> {
    if !Required(call) then Some(NotRequired)
    else if !call.modern then Some(ProtocolNotSupported)
    else if call.state.Some? != call.responses.Some? then Some(FieldsUnpaired)
    else if Binding(call).None? then Some(BindingInvalid)
    else if call.state.None? then
      if call.requestKeys.None? then Some(RequestsInvalid) else if !call.elicits then Some(MissingCapability) else None
    else if call.state.value.Malformed? then Some(StateMalformed)
    else None
  }

  predicate IssuesMrtr(call: MrtrCall) { Screen(call).None? && call.state.None? }

  predicate Presents(call: MrtrCall, h: Handle) { Screen(call).None? && call.state == Some(Token(h)) }

  function MrtrVerdict(s: Store, call: MrtrCall, e: Env): Verdict {
    if Screen(call).Some? then Screen(call).value
    else if call.state.None? then InputRequired(e.handle)
    else
      var h := call.state.value.handle;
      var first := Refusal(s, h, call.who, MRTR_KIND, e.now);
      if first.Some? then StateRefused(first.value)
      else
        var second := Refusal(s, h, call.who, MRTR_KIND, e.later);
        if second.Some? then StateRefused(second.value)
        else if !Matches(s.recs[h].payload, Binding(call).value) then BindingMismatch
        else if !ResponsesOk(call.responses.value, s.recs[h].payload.keys) then ResponsesInvalid
        else RetryReady
  }

  function MrtrAfter(s: Store, call: MrtrCall, e: Env): Store {
    if Screen(call).Some? then s
    else if call.state.None? then Created(s, e.handle, MRTR_KIND, call.who, Binding(call).value, e.now, BoundedTtl(e.ttl))
    else
      var h := call.state.value.handle;
      if Refusal(s, h, call.who, MRTR_KIND, e.now).Some? then Looked(s, h, e.now)
      else Destroyed(s, h, call.who, MRTR_KIND, e.later)
  }

  class MrtrExtension {
    const store: StateHandles.Store<Payload>

    constructor (store: StateHandles.Store<Payload>)
      ensures this.store == store
    {
      this.store := store;
    }

    /** A handle is looked up first and consumed in a second step, in the matching and in the mismatching case. */
    method Evaluate(call: MrtrCall, e: Env) returns (v: Verdict)
      requires Valid(store.records) && e.handle !in store.records.recs
      modifies store
      ensures v == MrtrVerdict(old(store.records), call, e) && store.records == MrtrAfter(old(store.records), call, e)
    {
      if !Required(call) { return NotRequired; }
      if !call.modern { return ProtocolNotSupported; }
      if call.state.Some? != call.responses.Some? { return FieldsUnpaired; }
      var binding := Binding(call);
      if binding.None? { return BindingInvalid; }
      if call.state.None? {
        if call.requestKeys.None? { return RequestsInvalid; }
        if !call.elicits { return MissingCapability; }
        store.Create(e.handle, MRTR_KIND, call.who, binding.value, e.now, BoundedTtl(e.ttl));
        return InputRequired(e.handle);
      }
      if call.state.value.Malformed? { return StateMalformed; }
      var h := call.state.value.handle;
      var read := store.Read(h, call.who, MRTR_KIND, e.now);
      if read.Err? { return StateRefused(read.error); }
      var consumed := store.Destroy(h, call.who, MRTR_KIND, e.later);
      if consumed.Err? { return StateRefused(consumed.error); }
      if !Matches(read.value, binding.value) { return BindingMismatch; }
      if !ResponsesOk(call.responses.value, read.value.keys) { return ResponsesInvalid; }
      return RetryReady;
    }
  }

  // ---------- The destructive-tool confirmation ----------

  predicate SupportedTarget(call: DeleteCall) { call.tool == DELETE_TOOL && call.project != "" }

  function DeleteBinding(call: DeleteCall): Payload { DeletePayload(call.tool, call.project) }

  function DeleteVerdictOf(s: Store, call: DeleteCall, e: Env): DeleteVerdict {
    if !SupportedTarget(call) then UnsupportedTarget
    else if !call.confirm then ConfirmationRequired(e.handle)
    else if call.handle.None? then HandleMissing
    else
      var first := Refusal(s, call.handle.value, call.who, DELETE_KIND, e.now);
      if first.Some? then HandleRefused(first.value)
      else if s.recs[call.handle.value].payload != DeleteBinding(call) then TargetMismatch
      else
        var second := Refusal(s, call.handle.value, call.who, DELETE_KIND, e.later);
        if second.Some? then HandleRefused(second.value) else Allowed
  }

  function DeleteAfter(s: Store, call: DeleteCall, e: Env): Store {
    if !SupportedTarget(call) then s
    else if !call.confirm then Created(s, e.handle, DELETE_KIND, call.who, DeleteBinding(call), e.now, BoundedTtl(e.ttl))
    else if call.handle.None? then s
    else
      var h := call.handle.value;
      if Refusal(s, h, call.who, DELETE_KIND, e.now).Some? then Looked(s, h, e.now)
      else if s.recs[h].payload != DeleteBinding(call) then s
      else Destroyed(s, h, call.who, DELETE_KIND, e.later)
  }

  class DestructiveConfirmation {
    const store: StateHandles.Store<Payload>

    constructor (store: StateHandles.Store<Payload>)
      ensures this.store == store
    {
      this.store := store;
    }

    method Evaluate(call: DeleteCall, e: Env) returns (v: DeleteVerdict)
      requires Valid(store.records) && e.handle !in store.records.recs
      modifies store
      ensures v == DeleteVerdictOf(old(store.records), call, e) && store.records == DeleteAfter(old(store.records), call, e)
    {
      if !SupportedTarget(call) { return UnsupportedTarget; }
      if !call.confirm {
        store.Create(e.handle, DELETE_KIND, call.who, DeleteBinding(call), e.now, BoundedTtl(e.ttl));
        return ConfirmationRequired(e.handle);
      }
      if call.handle.None? { return HandleMissing; }
      var h := call.handle.value;
      var read := store.Read(h, call.who, DELETE_KIND, e.now);
      if read.Err? { return HandleRefused(read.error); }
      if read.value != DeleteBinding(call) { return TargetMismatch; }
      var consumed := store.Destroy(h, call.who, DELETE_KIND, e.later);
      if consumed.Err? { return HandleRefused(consumed.error); }
      return Allowed;
    }
  }

  // ---------- Runs over one store ----------

  datatype Event = Mrtr(call: MrtrCall, env: Env) | Delete(target: DeleteCall, env: Env)

  function After(s: Store, e: Event): Store {
    match e case Mrtr(call, env) => MrtrAfter(s, call, env) case Delete(call, env) => DeleteAfter(s, call, env)
  }

  predicate Issues(e: Event) {
    match e case Mrtr(call, _) => IssuesMrtr(call) case Delete(call, _) => SupportedTarget(call) && !call.confirm
  }

  /** The record an issuing event stores. */
  function Issued(e: Event): Rec<Payload>
    requires Issues(e)
  {
    var expiresAt := e.env.now + StateHandles.Max(1, StateHandles.Min(BoundedTtl(e.env.ttl), MAX_TTL_MS));
    match e
    case Mrtr(call, _) => Rec(MRTR_KIND, call.who, expiresAt, Active, Binding(call).value)
    case Delete(call, _) => Rec(DELETE_KIND, call.who, expiresAt, Active, DeleteBinding(call))
  }

  /** The handle the event is let through with: the tool call goes on, or the deletion is allowed. */
  function Accepted(s: Store, e: Event): Option<Handle> {
    match e
    case Mrtr(call, env) => if MrtrVerdict(s, call, env) == RetryReady then Some(call.state.value.handle) else None
    case Delete(call, env) => if DeleteVerdictOf(s, call, env) == Allowed then call.handle else None
  }

  ghost predicate StepAt(run: seq<Store>, events: seq<Event>, i: nat)
    requires i < |events| < |run|
  {
    run[i + 1] == After(run[i], events[i])
  }

  ghost predicate IsRun(run: seq<Store>, events: seq<Event>) {
    |run| == |events| + 1 && run[0] == EMPTY && forall i :: 0 <= i < |events| ==> StepAt(run, events, i)
  }

  ghost predicate NoCollisions(events: seq<Event>) {
    forall i, j :: 0 <= i < j < |events| ==> events[i].env.handle != events[j].env.handle
  }

  predicate IssuedAt(events: seq<Event>, i: nat, h: Handle, r: Rec<Payload>) {
    i < |events| && Issues(events[i]) && events[i].env.handle == h && r.(status := Active) == Issued(events[i])
  }

  ghost predicate IssuedBefore(events: seq<Event>, k: nat, h: Handle, r: Rec<Payload>) {
    exists i: nat :: i < k && IssuedAt(events, i, h, r)
  }

  /** Every record in the store is one that an earlier event issued, but for its status. */
  ghost predicate Sound(s: Store, events: seq<Event>, k: nat) {
    Valid(s) && forall h :: h in s.recs ==> IssuedBefore(events, k, h, s.recs[h])
  }

  function CreatedBy(s: Store, e: Event): Store
    requires Issues(e)
  {
    match e
    case Mrtr(call, env) => Created(s, env.handle, MRTR_KIND, call.who, Binding(call).value, env.now, BoundedTtl(env.ttl))
    case Delete(call, env) => Created(s, env.handle, DELETE_KIND, call.who, DeleteBinding(call), env.now, BoundedTtl(env.ttl))
  }

  /** An event adds the record it issues, or changes statuses. */
  lemma AfterIs(s: Store, e: Event)
    ensures if Issues(e) then After(s, e) == CreatedBy(s, e) else StatusOnly(s, After(s, e))
  {
    match e
    case Mrtr(call, env) =>
      if call.state.Some? && call.state.value.Token? {
        var h := call.state.value.handle;
        LookingChangesStatusOnly(s, h, call.who, MRTR_KIND, env.now);
        LookingChangesStatusOnly(s, h, call.who, MRTR_KIND, env.later);
      }
    case Delete(call, env) =>
      if call.handle.Some? {
        LookingChangesStatusOnly(s, call.handle.value, call.who, DELETE_KIND, env.now);
        LookingChangesStatusOnly(s, call.handle.value, call.who, DELETE_KIND, env.later);
      }
  }

  lemma StepShape(s: Store, e: Event)
    requires Valid(s) && e.env.handle !in s.recs
    ensures Valid(After(s, e))
    ensures forall h :: h in After(s, e).recs ==>
      if h in s.recs then SameButStatus(s.recs[h], After(s, e).recs[h])
      else h == e.env.handle && Issues(e) && After(s, e).recs[h] == Issued(e)
  {
    AfterIs(s, e);
    if Issues(e) {
      EvictValid(s);
      CreatedValid(s, e.env.handle, Issued(e).kind, Issued(e).owner, Issued(e).payload, e.env.now, BoundedTtl(e.env.ttl));
    }
  }

  lemma StepSound(s: Store, after: Store, events: seq<Event>, k: nat)
    requires k < |events| && NoCollisions(events) && Sound(s, events, k) && after == After(s, events[k])
    ensures Sound(after, events, k + 1) && events[k].env.handle !in s.recs
  {
    Unseen(s, events, k);
    StepShape(s, events[k]);
    forall h | h in after.recs ensures IssuedBefore(events, k + 1, h, after.recs[h]) {
      if h in s.recs {
        var i: nat :| i < k && IssuedAt(events, i, h, s.recs[h]);
        assert IssuedAt(events, i, h, after.recs[h]);
      } else {
        assert IssuedAt(events, k, h, after.recs[h]);
      }
    }
  }

  lemma Unseen(s: Store, events: seq<Event>, k: nat)
    requires k < |events| && NoCollisions(events) && Sound(s, events, k)
    ensures events[k].env.handle !in s.recs
  {
    assert forall i: nat :: i < k ==> events[i].env.handle != events[k].env.handle;
  }

  lemma {:induction false} RunSound(run: seq<Store>, events: seq<Event>, k: nat)
    requires IsRun(run, events) && NoCollisions(events) && k <= |events|
    ensures Sound(run[k], events, k)
  {
    if k > 0 {
      RunSound(run, events, k - 1);
      assert StepAt(run, events, k - 1);
      StepSound(run[k - 1], run[k], events, k - 1);
    }
  }

  // ---------- One-shot ----------

  /** The event leaves the handle it presented dead: it was accepted, or the call did not fit or was not answered well. */
  predicate Consumes(s: Store, e: Event, h: Handle) {
    || Accepted(s, e) == Some(h)
    || (e.Mrtr? && Presents(e.call, h) && MrtrVerdict(s, e.call, e.env) in {BindingMismatch, ResponsesInvalid})
  }

  lemma ConsumedIsDead(s: Store, e: Event, h: Handle)
    requires Consumes(s, e, h)
    ensures Dead(After(s, e), h) && h in s.recs
  {
  }

  lemma StepKeepsDead(s: Store, e: Event, h: Handle)
    requires Valid(s) && Dead(s, h) && h != e.env.handle
    ensures Dead(After(s, e), h)
  {
    AfterIs(s, e);
    if Issues(e) { EvictValid(s); }
  }

  lemma {:induction false} DeadAlong(run: seq<Store>, events: seq<Event>, i: nat, j: nat, h: Handle)
    requires IsRun(run, events) && NoCollisions(events) && i <= j <= |events|
    requires Dead(run[i], h) && DrawnBefore(events, i, h)
    ensures Dead(run[j], h)
  {
    if i < j {
      DeadAlong(run, events, i, j - 1, h);
      RunSound(run, events, j - 1);
      assert StepAt(run, events, j - 1);
      StepKeepsDead(run[j - 1], events[j - 1], h);
    }
  }

  ghost predicate DrawnBefore(events: seq<Event>, k: nat, h: Handle) {
    exists i :: 0 <= i < k && i < |events| && events[i].env.handle == h
  }

  lemma DeadIsNotAccepted(s: Store, e: Event, h: Handle)
    requires Dead(s, h)
    ensures Accepted(s, e) != Some(h)
  {
  }

  /**
    Over every run, a handle is accepted at most once; and one that was consumed by a mismatching or badly answered call
    of the multi-round extension is never accepted at all.
   */
  lemma OneShot(run: seq<Store>, events: seq<Event>, i: nat, j: nat, h: Handle)
    requires IsRun(run, events) && NoCollisions(events) && i < j < |events|
    requires Consumes(run[i], events[i], h)
    ensures Accepted(run[j], events[j]) != Some(h)
  {
    DeadAfterwards(run, events, i, h);
    DeadAlong(run, events, i + 1, j, h);
    DeadIsNotAccepted(run[j], events[j], h);
  }

  lemma DeadAfterwards(run: seq<Store>, events: seq<Event>, i: nat, h: Handle)
    requires IsRun(run, events) && NoCollisions(events) && i < |events| && Consumes(run[i], events[i], h)
    ensures Dead(run[i + 1], h) && DrawnBefore(events, i + 1, h)
  {
    RunSound(run, events, i);
    assert StepAt(run, events, i);
    ConsumedIsDead(run[i], events[i], h);
    RecordedWasDrawn(run[i], events, i, h);
  }

  lemma RecordedWasDrawn(s: Store, events: seq<Event>, k: nat, h: Handle)
    requires k <= |events| && Sound(s, events, k) && h in s.recs
    ensures DrawnBefore(events, k, h) && DrawnBefore(events, k + 1, h)
  {
    var m: nat :| m < k && IssuedAt(events, m, h, s.recs[h]);
    assert events[m].env.handle == h;
  }

  // ---------- Bound to what was issued ----------

  /** The retry makes the call that the handle was issued for. */
  ghost predicate SameCall(issued: MrtrCall, retry: MrtrCall) {
    && issued.tool == retry.tool && SameParty(issued.who, retry.who) && issued.who.scopes == retry.who.scopes
    && issued.requirement.Some? && retry.requirement.Some? && Same(issued.requirement.value, retry.requirement.value)
    && (if CountsAsEmpty(issued.args) then CountsAsEmpty(retry.args)
        else !CountsAsEmpty(retry.args) && Same(issued.args.value, retry.args.value))
  }

  predicate CallWellFormed(call: MrtrCall) {
    (call.args.Some? ==> WellFormed(call.args.value)) && (call.requirement.Some? ==> WellFormed(call.requirement.value))
  }

  lemma MatchMeansSameCall(issued: MrtrCall, retry: MrtrCall)
    requires CallWellFormed(issued) && CallWellFormed(retry) && Binding(issued).Some? && Binding(retry).Some?
    requires Matches(Binding(issued).value, Binding(retry).value) && SameParty(issued.who, retry.who)
    ensures SameCall(issued, retry)
  {
    ArgumentsBoundIff(issued.args, retry.args);
    CanonicalTextIffSame(issued.requirement.value, retry.requirement.value, MAX_BINDING_BYTES);
  }

  /**
    Whatever is let through was issued earlier: to the same party, for the same tool, the same arguments up to key order,
    the same scopes and requirement, and it has not expired; the answers are those asked for.
   */
  lemma AcceptedMeansIssued(run: seq<Store>, events: seq<Event>, j: nat)
    requires IsRun(run, events) && NoCollisions(events) && j < |events|
    requires events[j].Mrtr? && Accepted(run[j], events[j]).Some?
    requires forall i :: 0 <= i < |events| && events[i].Mrtr? ==> CallWellFormed(events[i].call)
    ensures exists i: nat :: i < j && IssuedFor(events, i, j, Accepted(run[j], events[j]).value)
  {
    var h := Accepted(run[j], events[j]).value;
    RunSound(run, events, j);
    var r := run[j].recs[h];
    var i: nat :| i < j && IssuedAt(events, i, h, r);
    AcceptedFits(run[j], events[j].call, events[j].env);
    assert events[i].Mrtr?;
    assert r.payload == Binding(events[i].call).value;
    MatchMeansSameCall(events[i].call, events[j].call);
    assert IssuedFor(events, i, j, h);
  }

  lemma AcceptedFits(s: Store, call: MrtrCall, e: Env)
    requires MrtrVerdict(s, call, e) == RetryReady
    ensures Presents(call, call.state.value.handle) && call.state.value.handle in s.recs && Binding(call).Some?
    ensures var r := s.recs[call.state.value.handle];
      && r.kind == MRTR_KIND && SameParty(r.owner, call.who) && e.now < r.expiresAt && e.later < r.expiresAt
      && Matches(r.payload, Binding(call).value) && call.responses.Some? && ResponsesOk(call.responses.value, r.payload.keys)
  {
  }

  ghost predicate IssuedFor(events: seq<Event>, i: nat, j: nat, h: Handle)
    requires i < j < |events| && events[j].Mrtr?
  {
    && Issues(events[i]) && events[i].env.handle == h && events[i].Mrtr? && SameCall(events[i].call, events[j].call)
    && events[j].env.now < Issued(events[i]).expiresAt && events[j].env.later < Issued(events[i]).expiresAt
    && events[j].call.responses.Some? && events[i].call.requestKeys.Some?
    && ResponsesOk(events[j].call.responses.value, events[i].call.requestKeys.value)
  }

  lemma AllowedMeansIssued(run: seq<Store>, events: seq<Event>, j: nat)
    requires IsRun(run, events) && NoCollisions(events) && j < |events|
    requires events[j].Delete? && Accepted(run[j], events[j]).Some?
    ensures exists i: nat :: i < j && AllowedFor(events, i, j, Accepted(run[j], events[j]).value)
  {
    var h := Accepted(run[j], events[j]).value;
    RunSound(run, events, j);
    var i: nat :| i < j && IssuedAt(events, i, h, run[j].recs[h]);
    assert AllowedFor(events, i, j, h);
  }

  /** The confirmation was asked for the same project by the same party, whose scopes the caller still has. */
  ghost predicate AllowedFor(events: seq<Event>, i: nat, j: nat, h: Handle)
    requires i < j < |events| && events[j].Delete?
  {
    && Issues(events[i]) && events[i].env.handle == h && events[i].Delete?
    && events[i].target.project == events[j].target.project && SameParty(events[i].target.who, events[j].target.who)
    && events[i].target.who.scopes <= events[j].target.who.scopes && events[j].env.later < Issued(events[i]).expiresAt
  }

  // ---------- What does not consume ----------

  /** In the deletion manager neither a wrong target nor a foreign caller changes the store. */
  lemma DeletionMismatchKeepsStore(s: Store, call: DeleteCall, e: Env)
    requires SupportedTarget(call) && call.confirm && call.handle.Some?
    requires DeleteVerdictOf(s, call, e) == TargetMismatch
      || Refusal(s, call.handle.value, call.who, DELETE_KIND, e.now) in {Some(Unauthorized), Some(ScopeDenied), Some(KindMismatch)}
    ensures DeleteAfter(s, call, e) == s && DeleteVerdictOf(s, call, e) != Allowed
  {
  }

  /** A foreign caller of the multi-round extension leaves the whole store as it was. */
  lemma ForeignCallerKeepsStore(s: Store, call: MrtrCall, e: Env, h: Handle)
    requires Presents(call, h)
    requires Refusal(s, h, call.who, MRTR_KIND, e.now) in {Some(Unauthorized), Some(ScopeDenied), Some(KindMismatch)}
    ensures MrtrAfter(s, call, e) == s && MrtrVerdict(s, call, e).StateRefused?
  {
  }

  // ---------- An untouched handle is honoured ----------

  predicate TouchedBy(e: Event, h: Handle) {
    match e
    case Mrtr(call, _) => call.state == Some(Token(h))
    case Delete(call, _) => call.handle == Some(h)
  }

  function Creations(events: seq<Event>, i: nat, j: nat): nat
    requires i <= j <= |events|
  {
    if i == j then 0 else Creations(events, i, j - 1) + if Issues(events[j - 1]) then 1 else 0
  }

  /** Unchanged, and this many records were added after it. */
  ghost predicate Kept(s: Store, h: Handle, r: Rec<Payload>, younger: nat) {
    Valid(s) && At(s, h, younger) && s.recs[h] == r
  }

  lemma UntouchedStays(s: Store, e: Event, h: Handle)
    requires h in s.recs && !TouchedBy(e, h) && !Issues(e)
    ensures After(s, e).order == s.order && h in After(s, e).recs && After(s, e).recs[h] == s.recs[h]
    ensures Valid(s) ==> Valid(After(s, e))
  {
    AfterIs(s, e);
  }

  lemma CreationKeeps(s: Store, e: Event, h: Handle, r: Rec<Payload>, younger: nat)
    requires Kept(s, h, r, younger) && Issues(e) && e.env.handle !in s.recs && younger + 1 < MAX_RECORDS
    ensures Kept(CreatedBy(s, e), h, r, younger + 1)
  {
    CreatedValid(s, e.env.handle, Issued(e).kind, Issued(e).owner, Issued(e).payload, e.env.now, BoundedTtl(e.env.ttl));
    CreatedKeeps(s, h, younger, e.env.handle, Issued(e).kind, Issued(e).owner, Issued(e).payload, e.env.now, BoundedTtl(e.env.ttl));
  }

  lemma StepKeeps(s: Store, e: Event, h: Handle, r: Rec<Payload>, younger: nat)
    requires Kept(s, h, r, younger) && !TouchedBy(e, h) && e.env.handle !in s.recs
    requires Issues(e) ==> younger + 1 < MAX_RECORDS
    ensures Kept(After(s, e), h, r, if Issues(e) then younger + 1 else younger)
  {
    if Issues(e) { IssueKeeps(s, e, h, r, younger); } else { UntouchedKeeps(s, e, h, r, younger); }
  }

  lemma IssueKeeps(s: Store, e: Event, h: Handle, r: Rec<Payload>, younger: nat)
    requires Kept(s, h, r, younger) && Issues(e) && e.env.handle !in s.recs && younger + 1 < MAX_RECORDS
    ensures Kept(After(s, e), h, r, younger + 1)
  {
    AfterIs(s, e);
    CreationKeeps(s, e, h, r, younger);
  }

  lemma UntouchedKeeps(s: Store, e: Event, h: Handle, r: Rec<Payload>, younger: nat)
    requires Kept(s, h, r, younger) && !Issues(e) && !TouchedBy(e, h)
    ensures Kept(After(s, e), h, r, younger)
  {
    UntouchedStays(s, e, h);
  }

  lemma KeptAtFirst(s: Store, e: Event)
    requires Valid(s) && Issues(e) && e.env.handle !in s.recs
    ensures Kept(After(s, e), e.env.handle, Issued(e), 0)
  {
    StepShape(s, e);
    AfterIs(s, e);
    EvictValid(s);
  }

  lemma {:induction false} KeptAlong(run: seq<Store>, events: seq<Event>, i: nat, j: nat)
    requires IsRun(run, events) && NoCollisions(events) && i < j <= |events| && Issues(events[i])
    requires forall m :: i < m < j ==> !TouchedBy(events[m], events[i].env.handle)
    requires Creations(events, i + 1, j) < MAX_RECORDS
    ensures Kept(run[j], events[i].env.handle, Issued(events[i]), Creations(events, i + 1, j))
  {
    if i + 1 == j {
      RunSound(run, events, i);
      assert StepAt(run, events, i);
      Unseen(run[i], events, i);
      KeptAtFirst(run[i], events[i]);
    } else {
      KeptAlong(run, events, i, j - 1);
      KeptOnce(run, events, j - 1, events[i].env.handle, Issued(events[i]), Creations(events, i + 1, j - 1));
    }
  }

  lemma KeptOnce(run: seq<Store>, events: seq<Event>, k: nat, h: Handle, r: Rec<Payload>, younger: nat)
    requires IsRun(run, events) && NoCollisions(events) && k < |events| && Kept(run[k], h, r, younger)
    requires !TouchedBy(events[k], h) && (Issues(events[k]) ==> younger + 1 < MAX_RECORDS)
    ensures Kept(run[k + 1], h, r, if Issues(events[k]) then younger + 1 else younger)
  {
    RunSound(run, events, k);
    assert StepAt(run, events, k);
    Unseen(run[k], events, k);
    StepKeeps(run[k], events[k], h, r, younger);
  }

  /**
    A handle nobody presented meanwhile is honoured: unless a thousand newer ones pushed it out, the same call by the
    same caller, in time and well answered, is let through.
   */
  lemma UntouchedIsHonoured(run: seq<Store>, events: seq<Event>, i: nat, j: nat)
    requires IsRun(run, events) && NoCollisions(events) && i < j < |events| && events[i].Mrtr? && events[j].Mrtr?
    requires Issues(events[i]) && forall m :: i < m < j ==> !TouchedBy(events[m], events[i].env.handle)
    requires Creations(events, i + 1, j) < MAX_RECORDS
    requires var issued, retry := events[i].call, events[j].call;
      && Presents(retry, events[i].env.handle) && Binding(retry).Some? && SameParty(issued.who, retry.who)
      && Matches(Binding(issued).value, Binding(retry).value)
      && events[j].env.now < Issued(events[i]).expiresAt && events[j].env.later < Issued(events[i]).expiresAt
      && ResponsesOk(retry.responses.value, Binding(issued).value.keys)
    ensures Accepted(run[j], events[j]) == Some(events[i].env.handle)
  {
    KeptAlong(run, events, i, j);
  }
}
