/**
  The order in which a tools/call is processed: input check, multi-round extension, human consent, audit, execution; and
  what it guarantees of the calls of consent tools over every sequence of messages.
 */
module ConsentGate {
  import opened Results
  import opened CanonicalJson
  import opened StateHandles
  import opened Confirmations

  const RESPONSE_KEY := Units("human_approval")
  const CONFIRMED := Units("confirmed")

  /** The requirement the authorization decision attached, if any, and whether it is a human-consent requirement. */
  datatype Policy = Unrestricted | OtherRequirement(requirement: Json) | HumanConsent(requirement: Json, metadataOk: bool)

  datatype ConsentVerdict = ConsentNotRequired | ConsentAccepted | ConsentDenied

  /** The one answer that counts as consent: exactly {"confirmed": true} under the expected key, accepted. */
  predicate ConfirmsExactly(responses: Json) {
    && responses.Obj? && Keys(SortKeys(responses.fields)) == [RESPONSE_KEY]
    && HasKey(responses.fields, RESPONSE_KEY)
    && var response := Lookup(responses.fields, RESPONSE_KEY).value;
       && response.Obj? && HasKey(response.fields, ACTION)
       && Lookup(response.fields, ACTION).value == Str(Units("accept"))
       && HasKey(response.fields, CONTENT)
       && ContentConfirms(Lookup(response.fields, CONTENT).value)
  }

  predicate ContentConfirms(content: Json) {
    && content.Obj? && Keys(SortKeys(content.fields)) == [CONFIRMED]
    && HasKey(content.fields, CONFIRMED) && Lookup(content.fields, CONFIRMED).value == Bool(true)
  }

  function VerifyConsent(policy: Policy, responses: Json): ConsentVerdict {
    if !policy.HumanConsent? then ConsentNotRequired
    else if !policy.metadataOk || !ConfirmsExactly(responses) then ConsentDenied
    else ConsentAccepted
  }

  /** A single-key object is the literal one; nothing else has the right keys and value. */
  lemma ContentConfirmsExactly(content: Json)
    ensures ContentConfirms(content) <==> content == Obj(Field(CONFIRMED, Bool(true), NoField))
  {
    if content.Obj? {
      SortedCount(content.fields);
      if Keys(SortKeys(content.fields)) == [CONFIRMED] && content.fields.rest.NoField? {
        assert SortKeys(content.fields) == content.fields;
      }
    }
  }

  lemma {:induction false} InsertCount(key: Text, value: Json, f: Fields)
    ensures |Keys(Insert(key, value, f))| == 1 + |Keys(f)|
  {
    if f.Field? && !Less(key, f.key) { InsertCount(key, value, f.rest); }
  }

  lemma {:induction false} SortedCount(f: Fields)
    ensures |Keys(SortKeys(f))| == |Keys(f)|
  {
    if f.Field? {
      SortedCount(f.rest);
      InsertCount(f.key, f.value, SortKeys(f.rest));
    }
  }

  // ---------- The pipeline ----------

  /** `valid` is the outcome of checking the arguments against the tool's schema. */
  datatype Message = Message(valid: bool, policy: Policy, call: MrtrCall)

  datatype Audit =
    | InvalidArguments | MrtrDenied | MrtrInputRequired(handle: Handle) | RetryAccepted(handle: Handle)
    | ConsentDeniedEntry(handle: Handle) | ConsentAcceptedEntry(handle: Handle) | ToolCallStart(tool: string)

  datatype Execution = Execution(tool: string, args: Option<Json>)

  datatype State = State(records: Confirmations.Store, audit: seq<Audit>, executions: seq<Execution>)

  function Requirement(policy: Policy): Option<Json> {
    match policy case Unrestricted => None case OtherRequirement(r) => Some(r) case HumanConsent(r, _) => Some(r)
  }

  /** The call as the extension sees it: the requirement is the one the policy attached. */
  function CallOf(m: Message): MrtrCall { m.call.(requirement := Requirement(m.policy)) }

  predicate ConsentTool(m: Message) { m.policy.HumanConsent? && m.policy.requirement.Obj? }

  function HandleOf(m: Message): Handle {
    if m.call.state.Some? && m.call.state.value.Token? then m.call.state.value.handle else 0
  }

  /** What is audited after the input check, by outcome; the last flag says whether the tool is executed. */
  function Decide(s: State, m: Message, e: Env): (seq<Audit>, bool) {
    var h := HandleOf(m);
    match MrtrVerdict(s.records, CallOf(m), e)
    case NotRequired => ([ToolCallStart(m.call.tool)], true)
    case InputRequired(issued) => ([MrtrInputRequired(issued)], false)
    case RetryReady =>
      (match VerifyConsent(m.policy, m.call.responses.value)
       case ConsentDenied => ([RetryAccepted(h), ConsentDeniedEntry(h)], false)
       case ConsentAccepted => ([RetryAccepted(h), ConsentAcceptedEntry(h), ToolCallStart(m.call.tool)], true)
       case ConsentNotRequired => ([RetryAccepted(h), ToolCallStart(m.call.tool)], true))
    case _ => ([MrtrDenied], false)
  }

  function Handled(s: State, m: Message, e: Env): State {
    if !m.valid then s.(audit := s.audit + [InvalidArguments])
    else
      var d := Decide(s, m, e);
      State(MrtrAfter(s.records, CallOf(m), e), s.audit + d.0,
            if d.1 then s.executions + [Execution(m.call.tool, m.call.args)] else s.executions)
  }

  class Handler {
    const extension: MrtrExtension
    var audit: seq<Audit>
    var executions: seq<Execution>

    ghost function Snapshot(): State
      reads this, extension.store
    {
      State(extension.store.records, audit, executions)
    }

    constructor (extension: MrtrExtension)
      ensures this.extension == extension && audit == [] && executions == []
    {
      this.extension := extension;
      audit, executions := [], [];
    }

    method Execute(tool: string, args: Option<Json>)
      modifies this
      ensures audit == old(audit) + [ToolCallStart(tool)] && executions == old(executions) + [Execution(tool, args)]
    {
      audit := audit + [ToolCallStart(tool)];
      executions := executions + [Execution(tool, args)];
    }

    /** The retry was accepted: consent is checked before anything runs. */
    method Proceed(m: Message, h: Handle, responses: Json)
      modifies this
      ensures VerifyConsent(m.policy, responses) == ConsentDenied ==>
        audit == old(audit) + [RetryAccepted(h), ConsentDeniedEntry(h)] && executions == old(executions)
      ensures VerifyConsent(m.policy, responses) == ConsentAccepted ==>
        audit == old(audit) + [RetryAccepted(h), ConsentAcceptedEntry(h), ToolCallStart(m.call.tool)]
      ensures VerifyConsent(m.policy, responses) == ConsentNotRequired ==>
        audit == old(audit) + [RetryAccepted(h), ToolCallStart(m.call.tool)]
      ensures VerifyConsent(m.policy, responses) != ConsentDenied ==>
        executions == old(executions) + [Execution(m.call.tool, m.call.args)]
    {
      audit := audit + [RetryAccepted(h)];
      var consent := VerifyConsent(m.policy, responses);
      if consent == ConsentDenied {
        audit := audit + [ConsentDeniedEntry(h)];
        return;
      }
      if consent == ConsentAccepted { audit := audit + [ConsentAcceptedEntry(h)]; }
      Execute(m.call.tool, m.call.args);
    }

    /** One tools/call message. */
    method Handle(m: Message, e: Env)
      requires Valid(extension.store.records) && e.handle !in extension.store.records.recs
      modifies this, extension.store
      ensures Snapshot() == Handled(old(Snapshot()), m, e)
    {
      if !m.valid {
        audit := audit + [InvalidArguments];
        return;
      }
      var h := HandleOf(m);
      var v := extension.Evaluate(CallOf(m), e);
      match v {
        case NotRequired => Execute(m.call.tool, m.call.args);
        case InputRequired(issued) => audit := audit + [MrtrInputRequired(issued)];
        case RetryReady => Proceed(m, h, m.call.responses.value);
        case _ => audit := audit + [MrtrDenied];
      }
    }
  }

  // ---------- Every sequence of messages ----------

  datatype Turn = Turn(m: Message, env: Env)

  /** The handle store sees the call, or nothing when the input was invalid. */
  function Projected(t: Turn): Event { Mrtr(if t.m.valid then CallOf(t.m) else CallOf(t.m).(requirement := None), t.env) }

  predicate Executes(s: State, t: Turn) { t.m.valid && Decide(s, t.m, t.env).1 }

  ghost predicate TurnAt(run: seq<State>, turns: seq<Turn>, i: nat)
    requires i < |turns| < |run|
  {
    run[i + 1] == Handled(run[i], turns[i].m, turns[i].env)
  }

  ghost predicate IsGateRun(run: seq<State>, turns: seq<Turn>) {
    && |run| == |turns| + 1 && run[0] == State(EMPTY, [], []) && (forall i :: 0 <= i < |turns| ==> TurnAt(run, turns, i))
  }

  function Events(turns: seq<Turn>): seq<Event> { seq(|turns|, i requires 0 <= i < |turns| => Projected(turns[i])) }

  function Stores(run: seq<State>): seq<Confirmations.Store> { seq(|run|, i requires 0 <= i < |run| => run[i].records) }

  /** The handle store along a sequence of messages is a run of the store. */
  lemma StoreRun(run: seq<State>, turns: seq<Turn>)
    requires IsGateRun(run, turns)
    ensures IsRun(Stores(run), Events(turns))
  {
    forall i: nat | i < |turns| ensures StepAt(Stores(run), Events(turns), i) {
      assert TurnAt(run, turns, i);
    }
  }

  /** A consent tool that is executed was let through with a handle and confirmed exactly. */
  lemma ExecutionHasConsent(s: State, t: Turn)
    requires ConsentTool(t.m) && Executes(s, t)
    ensures Accepted(s.records, Projected(t)) == Some(HandleOf(t.m)) && ConfirmsExactly(t.m.call.responses.value)
    ensures var h, tool := HandleOf(t.m), t.m.call.tool;
      Handled(s, t.m, t.env).audit == s.audit + [RetryAccepted(h), ConsentAcceptedEntry(h), ToolCallStart(tool)]
  {
  }

  /** The earlier message that asked for the consent this execution rests on. */
  ghost predicate AskedFor(run: seq<State>, turns: seq<Turn>, i: nat, j: nat)
    requires i < j < |turns| < |run|
  {
    && turns[i].m.valid && turns[i].env.handle == HandleOf(turns[j].m) && SameCall(CallOf(turns[i].m), CallOf(turns[j].m))
    && run[i + 1].audit == run[i].audit + [MrtrInputRequired(HandleOf(turns[j].m))] && run[i + 1].executions == run[i].executions
  }

  /**
    In every sequence of messages, each execution of a consent tool rests on an earlier request for consent to the same
    call, and no two executions rest on the same one.
   */
  lemma ConsentGatesExecution(run: seq<State>, turns: seq<Turn>, j: nat)
    requires IsGateRun(run, turns) && NoCollisions(Events(turns)) && j < |turns|
    requires forall i :: 0 <= i < |turns| ==> CallWellFormed(CallOf(turns[i].m))
    requires ConsentTool(turns[j].m) && Executes(run[j], turns[j])
    ensures exists i: nat :: i < j && AskedFor(run, turns, i, j)
  {
    StoreRun(run, turns);
    ExecutionHasConsent(run[j], turns[j]);
    assert Stores(run)[j] == run[j].records && Events(turns)[j] == Projected(turns[j]);
    CallsWellFormed(turns);
    AcceptedMeansIssued(Stores(run), Events(turns), j);
    var i: nat :| i < j && IssuedFor(Events(turns), i, j, HandleOf(turns[j].m));
    IssueAsks(run, turns, i, j);
  }

  lemma CallsWellFormed(turns: seq<Turn>)
    requires forall i :: 0 <= i < |turns| ==> CallWellFormed(CallOf(turns[i].m))
    ensures var events := Events(turns); forall i :: 0 <= i < |events| && events[i].Mrtr? ==> CallWellFormed(events[i].call)
  {
    forall i | 0 <= i < |turns| ensures CallWellFormed(Projected(turns[i]).call) {
      assert CallWellFormed(CallOf(turns[i].m));
    }
  }

  lemma IssueAsks(run: seq<State>, turns: seq<Turn>, i: nat, j: nat)
    requires IsGateRun(run, turns) && i < j < |turns| && IssuedFor(Events(turns), i, j, HandleOf(turns[j].m))
    requires turns[j].m.valid
    ensures AskedFor(run, turns, i, j)
  {
    assert Events(turns)[i] == Projected(turns[i]) && Events(turns)[j] == Projected(turns[j]);
    assert TurnAt(run, turns, i);
  }

  lemma OneExecutionPerConsent(run: seq<State>, turns: seq<Turn>, i: nat, j: nat)
    requires IsGateRun(run, turns) && NoCollisions(Events(turns)) && i < j < |turns|
    requires ConsentTool(turns[i].m) && Executes(run[i], turns[i]) && ConsentTool(turns[j].m) && Executes(run[j], turns[j])
    ensures HandleOf(turns[i].m) != HandleOf(turns[j].m)
  {
    StoreRun(run, turns);
    ExecutionHasConsent(run[i], turns[i]);
    ExecutionHasConsent(run[j], turns[j]);
    var stores, events := Stores(run), Events(turns);
    assert stores[i] == run[i].records && stores[j] == run[j].records;
    assert events[i] == Projected(turns[i]) && events[j] == Projected(turns[j]);
    OneShot(stores, events, i, j, HandleOf(turns[i].m));
  }

  /** Executions are counted one by one; a round that does not execute leaves them as they were. */
  lemma OnlyExecutionsCount(s: State, t: Turn)
    ensures Handled(s, t.m, t.env).executions
         == if Executes(s, t) then s.executions + [Execution(t.m.call.tool, t.m.call.args)] else s.executions
    ensures !t.m.valid ==> Handled(s, t.m, t.env).records == s.records && !Executes(s, t)
    ensures t.m.valid ==> var entries := Decide(s, t.m, t.env).0;
      Handled(s, t.m, t.env).audit == s.audit + entries && (Executes(s, t) <==> ToolCallStart(t.m.call.tool) in entries)
  {
  }
}
