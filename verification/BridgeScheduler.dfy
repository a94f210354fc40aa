/**
  Which calls of the codebase-memory bridge run at once. A call runs until it awaits; between two awaits nothing else
  runs, so every interleaving is a sequence of the events below. Heavy reads share two slots and wait in a FIFO queue;
  a mutation is refused while another one is active.
 */
module BridgeScheduler {
  import opened Results

  datatype Tool =
    | ListProjects | IndexRepository | GetArchitecture | SearchGraph | QueryGraph | TracePath | GetCodeSnippet
    | GetGraphSchema | SearchCode | DeleteProject | IndexStatus | DetectChanges | ManageAdr | IngestTraces

  predicate Heavy(t: Tool) { t !in {ListProjects, IndexRepository, GetGraphSchema, IndexStatus} }

  predicate Mutates(t: Tool) { t in {IndexRepository, DeleteProject, ManageAdr, IngestTraces} }

  const HEAVY_READ_CAPACITY := 2

  /**
    Where a call is: in the queue; let in but not yet resumed after its await; running; or answered.
   */
  datatype Phase = Waiting | Admitted | Running | Answered(answer: Answer)

  datatype Answer = MutationBusy | QueueTimeout | Finished

  datatype Call = Call(tool: Tool, phase: Phase)

  datatype State = State(activeHeavyReads: int, queue: seq<nat>, activeMutation: Option<Tool>, calls: map<nat, Call>)

  const IDLE := State(0, [], None, map[])

  datatype Event = Enter(id: nat, tool: Tool) | Resume(id: nat) | TimeOut(id: nat) | Finish(id: nat)

  predicate In(s: State, id: nat, phase: Phase) { id in s.calls && s.calls[id].phase == phase }

  function Set(s: State, id: nat, phase: Phase): State
    requires id in s.calls
  {
    s.(calls := s.calls[id := s.calls[id].(phase := phase)])
  }

  function Without(queue: seq<nat>, id: nat): seq<nat> {
    if queue == [] then [] else if queue[0] == id then queue[1..] else [queue[0]] + Without(queue[1..], id)
  }

  function Release(s: State): State
    requires forall k :: 0 <= k < |s.queue| ==> s.queue[k] in s.calls
  {
    var freed := s.(activeHeavyReads := if s.activeHeavyReads > 0 then s.activeHeavyReads - 1 else s.activeHeavyReads);
    if freed.queue == [] then freed
    else Set(freed.(queue := freed.queue[1..], activeHeavyReads := freed.activeHeavyReads + 1), freed.queue[0], Admitted)
  }

  function EnterCall(s: State, id: nat, tool: Tool): State {
    if Mutates(tool) && s.activeMutation.Some? then s.(calls := s.calls[id := Call(tool, Answered(MutationBusy))])
    else if Heavy(tool) then
      if s.activeHeavyReads < HEAVY_READ_CAPACITY then
        s.(activeHeavyReads := s.activeHeavyReads + 1, calls := s.calls[id := Call(tool, Admitted)])
      else s.(queue := s.queue + [id], calls := s.calls[id := Call(tool, Waiting)])
    else
      s.(activeMutation := if Mutates(tool) then Some(tool) else s.activeMutation, calls := s.calls[id := Call(tool, Running)])
  }

  function ResumeCall(s: State, id: nat): State
    requires id in s.calls
  {
    var tool := s.calls[id].tool;
    Set(s.(activeMutation := if Mutates(tool) then Some(tool) else s.activeMutation), id, Running)
  }

  function FinishCall(s: State, id: nat): State
    requires id in s.calls && forall k :: 0 <= k < |s.queue| ==> s.queue[k] in s.calls
  {
    if Heavy(s.calls[id].tool) then Release(AnswerCall(s, id)) else AnswerCall(s, id)
  }

  /** Whether the event can happen: ids are used once, and a call resumes, times out or ends only where it can. */
  predicate Enabled(s: State, e: Event) {
    match e
    case Enter(id, _) => id !in s.calls
    case Resume(id) => In(s, id, Admitted)
    case TimeOut(id) => In(s, id, Waiting)
    case Finish(id) => In(s, id, Running)
  }

  function Step(s: State, e: Event): State
    requires Enabled(s, e) && Queued(s)
  {
    match e
    case Enter(id, tool) => EnterCall(s, id, tool)
    case Resume(id) => ResumeCall(s, id)
    case TimeOut(id) => Set(s.(queue := Without(s.queue, id)), id, Answered(QueueTimeout))
    case Finish(id) => FinishCall(s, id)
  }

  // ---------- What every interleaving keeps ----------

  /** The queue lists exactly the waiting calls, each once. */
  ghost predicate Queued(s: State) {
    && (forall k :: 0 <= k < |s.queue| ==> In(s, s.queue[k], Waiting))
    && (forall j, k :: 0 <= j < k < |s.queue| ==> s.queue[j] != s.queue[k])
    && (forall id :: In(s, id, Waiting) ==> id in s.queue)
  }

  predicate HoldsSlot(c: Call) { Heavy(c.tool) && c.phase in {Admitted, Running} }

  function Holders(s: State): set<nat> { set id | id in s.calls && HoldsSlot(s.calls[id]) }

  predicate RunsMutation(s: State, id: nat) { In(s, id, Running) && Mutates(s.calls[id].tool) }

  ghost predicate SlotsCounted(s: State) {
    && s.activeHeavyReads == |Holders(s)| <= HEAVY_READ_CAPACITY
    && (s.queue != [] ==> s.activeHeavyReads == HEAVY_READ_CAPACITY)
  }

  ghost predicate OnlyHeavyAwait(s: State) {
    forall id :: id in s.calls && s.calls[id].phase in {Waiting, Admitted} ==> Heavy(s.calls[id].tool)
  }

  /** A recorded mutation is running. */
  ghost predicate MutationKnown(s: State) {
    s.activeMutation.Some? ==> exists id :: RunsMutation(s, id) && s.calls[id].tool == s.activeMutation.value
  }

  ghost predicate Consistent(s: State) { Queued(s) && SlotsCounted(s) && OnlyHeavyAwait(s) && MutationKnown(s) }

  lemma MutationStays(s: State, after: State)
    requires MutationKnown(s) && after.activeMutation in {s.activeMutation, None}
    requires after.activeMutation.Some? ==>
      forall m :: RunsMutation(s, m) && s.calls[m].tool == s.activeMutation.value ==> m in after.calls && after.calls[m] == s.calls[m]
    ensures MutationKnown(after)
  {
    if after.activeMutation.Some? {
      var m :| RunsMutation(s, m) && s.calls[m].tool == s.activeMutation.value;
      assert RunsMutation(after, m);
    }
  }

  lemma {:induction false} WithoutKeeps(queue: seq<nat>, id: nat)
    requires forall j, k :: 0 <= j < k < |queue| ==> queue[j] != queue[k]
    ensures var rest := Without(queue, id);
      && (forall x :: x in rest <==> x in queue && x != id)
      && (forall j, k :: 0 <= j < k < |rest| ==> rest[j] != rest[k])
  {
    if queue != [] {
      assert forall x :: x in queue <==> x == queue[0] || x in queue[1..];
      if queue[0] != id {
        WithoutKeeps(queue[1..], id);
        var tail := Without(queue[1..], id);
        forall k | 0 <= k < |tail| ensures tail[k] != queue[0] { assert tail[k] in tail; }
      }
    }
  }

  lemma EnterKeeps(s: State, id: nat, tool: Tool)
    requires Consistent(s) && id !in s.calls
    ensures Consistent(EnterCall(s, id, tool))
  {
    EnterQueue(s, EnterCall(s, id, tool), id);
    EnterSlots(s, id, tool);
    EnterAwaits(s, id, tool);
    EnterMutation(s, id, tool);
  }

  lemma EnterSlots(s: State, id: nat, tool: Tool)
    requires SlotsCounted(s) && id !in s.calls
    ensures SlotsCounted(EnterCall(s, id, tool))
  {
    var after := EnterCall(s, id, tool);
    if after.calls[id].phase == Admitted { AdmittedCounts(s, after, id); } else { OtherwiseSame(s, after, id); }
  }

  lemma AdmittedCounts(s: State, after: State, id: nat)
    requires SlotsCounted(s) && s.activeHeavyReads < HEAVY_READ_CAPACITY && id !in s.calls && id in after.calls
    requires after.calls == s.calls[id := after.calls[id]] && HoldsSlot(after.calls[id])
    requires after.queue == s.queue && after.activeHeavyReads == s.activeHeavyReads + 1
    ensures SlotsCounted(after)
  {
    NewHolder(s, after, id);
  }

  lemma OtherwiseSame(s: State, after: State, id: nat)
    requires SlotsCounted(s) && id !in s.calls && id in after.calls
    requires after.calls == s.calls[id := after.calls[id]] && !HoldsSlot(after.calls[id])
    requires after.activeHeavyReads == s.activeHeavyReads
    requires after.queue == s.queue || after.activeHeavyReads >= HEAVY_READ_CAPACITY
    ensures SlotsCounted(after)
  {
    NoNewHolder(s, after, id);
  }

  lemma EnterAwaits(s: State, id: nat, tool: Tool)
    requires OnlyHeavyAwait(s) && id !in s.calls
    ensures OnlyHeavyAwait(EnterCall(s, id, tool))
  {
  }

  lemma NewHolder(s: State, after: State, id: nat)
    requires id in after.calls && after.calls == s.calls[id := after.calls[id]] && HoldsSlot(after.calls[id])
    requires id !in s.calls
    ensures Holders(after) == Holders(s) + {id} && |Holders(after)| == |Holders(s)| + 1
  {
    assert Holders(after) == Holders(s) + {id};
  }

  lemma EnterMutation(s: State, id: nat, tool: Tool)
    requires MutationKnown(s) && id !in s.calls
    ensures MutationKnown(EnterCall(s, id, tool))
  {
    var after := EnterCall(s, id, tool);
    if after.activeMutation == s.activeMutation { MutationStays(s, after); } else { assert RunsMutation(after, id); }
  }

  lemma NoNewHolder(s: State, after: State, id: nat)
    requires id in after.calls && after.calls == s.calls[id := after.calls[id]] && !HoldsSlot(after.calls[id])
    requires id !in Holders(s)
    ensures Holders(after) == Holders(s)
  {
  }

  lemma EnterQueue(s: State, after: State, id: nat)
    requires Queued(s) && id !in s.calls && id in after.calls && after.calls == s.calls[id := after.calls[id]]
    requires after.queue == if after.calls[id].phase == Waiting then s.queue + [id] else s.queue
    ensures Queued(after)
  {
    forall o | In(after, o, Waiting) ensures o in after.queue {
      if o != id { assert In(s, o, Waiting); }
    }
    forall k | 0 <= k < |s.queue| ensures s.queue[k] != id && In(after, s.queue[k], Waiting) {
      assert In(s, s.queue[k], Waiting);
    }
  }

  lemma ResumeKeeps(s: State, id: nat)
    requires Consistent(s) && In(s, id, Admitted)
    ensures Consistent(ResumeCall(s, id))
  {
    var after := ResumeCall(s, id);
    assert Holders(after) == Holders(s);
    if Mutates(s.calls[id].tool) { assert RunsMutation(after, id); } else { MutationStays(s, after); }
  }

  lemma TimeOutKeeps(s: State, id: nat)
    requires Consistent(s) && In(s, id, Waiting)
    ensures Consistent(Step(s, TimeOut(id)))
  {
    var after := Step(s, TimeOut(id));
    WithoutKeeps(s.queue, id);
    NoNewHolder(s, after, id);
    MutationStays(s, after);
    forall k | 0 <= k < |after.queue| ensures In(after, after.queue[k], Waiting) {
      assert after.queue[k] in after.queue && after.queue[k] in s.queue;
    }
    forall o | In(after, o, Waiting) ensures o in after.queue { assert In(s, o, Waiting); }
    assert after.queue != [] ==> s.queue != [] by { if after.queue != [] { assert after.queue[0] in s.queue; } }
  }

  /** A freed slot goes to the head of the queue at once. */
  lemma ReleaseKeeps(s: State, before: set<nat>)
    requires Queued(s) && Holders(s) == before && s.activeHeavyReads == |before| + 1 <= HEAVY_READ_CAPACITY
    requires s.queue != [] ==> s.activeHeavyReads == HEAVY_READ_CAPACITY
    requires OnlyHeavyAwait(s) && MutationKnown(s)
    ensures Consistent(Release(s))
  {
    var after := Release(s);
    if s.queue != [] {
      var next := s.queue[0];
      assert In(s, next, Waiting);
      assert Holders(after) == before + {next};
      forall id | In(after, id, Waiting) ensures id in after.queue {
        assert In(s, id, Waiting) && id != next;
      }
    }
    MutationStays(s, after);
  }

  /** The call ends, before its slot is given back. */
  function AnswerCall(s: State, id: nat): State
    requires id in s.calls
  {
    var tool := s.calls[id].tool;
    var cleared := s.(activeMutation := if Mutates(tool) && s.activeMutation == Some(tool) then None else s.activeMutation);
    Set(cleared, id, Answered(Finished))
  }

  lemma AnswerKeeps(s: State, id: nat)
    requires Consistent(s) && In(s, id, Running)
    ensures var answered := AnswerCall(s, id);
      && Queued(answered) && OnlyHeavyAwait(answered) && MutationKnown(answered) && Holders(answered) == Holders(s) - {id}
      && answered.queue == s.queue && answered.activeHeavyReads == s.activeHeavyReads
  {
    var answered := AnswerCall(s, id);
    MutationStays(s, answered);
    forall k | 0 <= k < |s.queue| ensures In(answered, s.queue[k], Waiting) { assert In(s, s.queue[k], Waiting); }
    forall o | In(answered, o, Waiting) ensures o in answered.queue { assert In(s, o, Waiting); }
  }

  lemma FinishKeeps(s: State, id: nat)
    requires Consistent(s) && In(s, id, Running)
    ensures Consistent(FinishCall(s, id))
  {
    AnswerKeeps(s, id);
    if Heavy(s.calls[id].tool) {
      assert id in Holders(s);
      ReleaseKeeps(AnswerCall(s, id), Holders(s) - {id});
    } else {
      assert Holders(s) - {id} == Holders(s);
    }
  }

  lemma StepKeeps(s: State, e: Event)
    requires Consistent(s) && Enabled(s, e)
    ensures Consistent(Step(s, e))
  {
    match e
    case Enter(id, tool) => EnterKeeps(s, id, tool);
    case Resume(id) => ResumeKeeps(s, id);
    case TimeOut(id) => TimeOutKeeps(s, id);
    case Finish(id) => FinishKeeps(s, id);
  }

  // ---------- Interleavings ----------

  ghost predicate StepAt(run: seq<State>, events: seq<Event>, i: nat)
    requires i < |events| < |run|
  {
    Enabled(run[i], events[i]) && Queued(run[i]) && run[i + 1] == Step(run[i], events[i])
  }

  ghost predicate IsRun(run: seq<State>, events: seq<Event>) {
    && |run| == |events| + 1 && run[0] == IDLE && forall i :: 0 <= i < |events| ==> StepAt(run, events, i)
  }

  /** In every interleaving the counter is the number of slot holders, at most two, and nobody waits beside a free slot. */
  lemma {:induction false} RunKeepsConsistent(run: seq<State>, events: seq<Event>, k: nat)
    requires IsRun(run, events) && k <= |events|
    ensures Consistent(run[k])
  {
    if k > 0 {
      RunKeepsConsistent(run, events, k - 1);
      assert StepAt(run, events, k - 1);
      StepKeeps(run[k - 1], events[k - 1]);
    } else {
      assert Holders(IDLE) == {};
    }
  }

  /** When every call is answered, all counters are back where they started. */
  lemma QuietMeansIdle(run: seq<State>, events: seq<Event>, k: nat)
    requires IsRun(run, events) && k <= |events|
    requires forall id :: id in run[k].calls ==> run[k].calls[id].phase.Answered?
    ensures run[k].activeHeavyReads == 0 && run[k].queue == [] && run[k].activeMutation == None
  {
    RunKeepsConsistent(run, events, k);
    assert Holders(run[k]) == {};
  }

  /** While somebody waits, two other calls hold slots and each of them can go on: the queue cannot get stuck. */
  lemma WaitersAreServed(run: seq<State>, events: seq<Event>, k: nat)
    requires IsRun(run, events) && k <= |events| && run[k].queue != []
    ensures |Holders(run[k])| == 2
    ensures forall id :: id in Holders(run[k]) ==> Enabled(run[k], Resume(id)) || Enabled(run[k], Finish(id))
  {
    RunKeepsConsistent(run, events, k);
  }

  // ---------- First come, first served ----------

  /** Position in the queue; the length of the queue for a call that is not in it. */
  function Position(queue: seq<nat>, id: nat): nat {
    if queue == [] then 0 else if queue[0] == id then 0 else 1 + Position(queue[1..], id)
  }

  lemma {:induction false} PositionWithout(queue: seq<nat>, id: nat, gone: nat)
    requires id in queue && gone != id
    ensures id in Without(queue, gone)
    ensures Position(queue, id) - 1 <= Position(Without(queue, gone), id) <= Position(queue, id)
  {
    if queue[0] != id && queue[0] != gone {
      PositionWithout(queue[1..], id, gone);
    }
  }

  lemma {:induction false} PositionAppend(queue: seq<nat>, id: nat, more: nat)
    requires id in queue
    ensures Position(queue + [more], id) == Position(queue, id)
  {
    if queue[0] != id {
      assert (queue + [more])[1..] == queue[1..] + [more];
      PositionAppend(queue[1..], id, more);
    }
  }

  /** The calls whose end hands a slot over. */
  predicate FreesSlot(s: State, e: Event)
    requires Enabled(s, e)
  {
    e.Finish? && Heavy(s.calls[e.id].tool)
  }

  /**
    A waiting call is never lost and never overtaken: unless it times out itself, a step leaves it in the queue no
    further back than before, and a freed slot moves it one place forward or lets it in.
   */
  lemma NeverLostNorOvertaken(s: State, e: Event, id: nat)
    requires Consistent(s) && Enabled(s, e) && In(s, id, Waiting) && e != TimeOut(id)
    ensures var after := Step(s, e);
      if FreesSlot(s, e) && Position(s.queue, id) == 0 then In(after, id, Admitted)
      else && In(after, id, Waiting) && id in after.queue && Position(after.queue, id) <= Position(s.queue, id)
           && (FreesSlot(s, e) ==> Position(after.queue, id) == Position(s.queue, id) - 1)
  {
    match e
    case Enter(o, tool) => PositionAppend(s.queue, id, o);
    case TimeOut(o) => PositionWithout(s.queue, id, o);
    case Resume(o) =>
    case Finish(o) => assert In(s, s.queue[0], Waiting);
  }

  // ---------- Mutations ----------

  ghost predicate OneMutation(s: State) {
    forall a, b :: RunsMutation(s, a) && RunsMutation(s, b) ==> a == b
  }

  /** No call so far used a mutation that waits for a slot; then the recorded mutation is the only one. */
  ghost predicate Exclusive(s: State) {
    && (forall id :: id in s.calls && Mutates(s.calls[id].tool) ==> !Heavy(s.calls[id].tool))
    && OneMutation(s) && (s.activeMutation == None ==> forall id :: !RunsMutation(s, id))
    && (forall id :: RunsMutation(s, id) ==> s.activeMutation == Some(s.calls[id].tool))
  }

  predicate UsesOnly(events: seq<Event>, tools: set<Tool>) {
    forall i :: 0 <= i < |events| && events[i].Enter? ==> events[i].tool in tools
  }

  lemma StepExclusive(s: State, e: Event)
    requires Consistent(s) && Enabled(s, e) && Exclusive(s)
    requires e.Enter? && Mutates(e.tool) ==> !Heavy(e.tool)
    ensures Exclusive(Step(s, e))
  {
    var after := Step(s, e);
    if e.Enter? {
      forall o | RunsMutation(after, o) && o != e.id ensures RunsMutation(s, o) && s.calls[o] == after.calls[o] { }
      if Mutates(e.tool) && s.activeMutation == None { assert forall o :: !RunsMutation(s, o); }
    } else {
      OthersUnchanged(s, e);
      forall id | RunsMutation(after, id) ensures RunsMutation(s, id) && s.calls[id].tool == after.calls[id].tool { }
      if e.Finish? && RunsMutation(s, e.id) {
        assert !RunsMutation(after, e.id);
        assert forall m :: RunsMutation(s, m) ==> m == e.id;
      }
    }
  }

  /** A step other than a new call changes no tool, and starts running only what it resumes. */
  lemma OthersUnchanged(s: State, e: Event)
    requires Consistent(s) && Enabled(s, e) && !e.Enter?
    ensures var after := Step(s, e);
      && after.calls.Keys == s.calls.Keys
      && (forall id :: id in s.calls ==> after.calls[id].tool == s.calls[id].tool)
      && (forall id :: id in s.calls && after.calls[id].phase == Running && s.calls[id].phase != Running ==>
            e == Resume(id) && Heavy(s.calls[id].tool))
  {
    if s.queue != [] { assert In(s, s.queue[0], Waiting); }
  }

  lemma {:induction false} RunExclusive(run: seq<State>, events: seq<Event>, tools: set<Tool>, k: nat)
    requires IsRun(run, events) && UsesOnly(events, tools) && k <= |events|
    requires forall t :: t in tools && Mutates(t) ==> !Heavy(t)
    ensures Exclusive(run[k])
  {
    if k > 0 {
      RunExclusive(run, events, tools, k - 1);
      RunKeepsConsistent(run, events, k - 1);
      assert StepAt(run, events, k - 1);
      StepExclusive(run[k - 1], events[k - 1]);
    }
  }

  ghost predicate AlwaysOneMutation(tools: set<Tool>) {
    forall run, events, k: nat :: IsRun(run, events) && UsesOnly(events, tools) && k <= |events| ==> OneMutation(run[k])
  }

  /** Two calls of a mutation that waits for a slot pass the check before either has claimed it. */
  lemma TwoMutationsAtOnce(t: Tool) returns (run: seq<State>, events: seq<Event>)
    requires Mutates(t) && Heavy(t)
    ensures IsRun(run, events) && UsesOnly(events, {t}) && !OneMutation(run[|events|])
  {
    events := [Enter(1, t), Enter(2, t), Resume(1), Resume(2)];
    var s1 := Step(IDLE, events[0]);
    var s2 := Step(s1, events[1]);
    var s3 := Step(s2, events[2]);
    var s4 := Step(s3, events[3]);
    run := [IDLE, s1, s2, s3, s4];
    forall i | 0 <= i < |events| ensures StepAt(run, events, i) { }
    assert RunsMutation(s4, 1) && RunsMutation(s4, 2);
  }

  /**
    "At most one mutation is active" holds in every interleaving exactly when, of the mutating tools, only those that
    take no slot are used, which leaves index_repository.
   */
  lemma OneMutationIff(tools: set<Tool>)
    ensures AlwaysOneMutation(tools) <==> tools * {DeleteProject, ManageAdr, IngestTraces} == {}
  {
    if tools * {DeleteProject, ManageAdr, IngestTraces} == {} {
      forall t | t in tools && Mutates(t) ensures !Heavy(t) {
        assert t !in tools * {DeleteProject, ManageAdr, IngestTraces};
      }
      forall run, events, k: nat | IsRun(run, events) && UsesOnly(events, tools) && k <= |events|
        ensures OneMutation(run[k])
      {
        RunExclusive(run, events, tools, k);
      }
    } else {
      var t :| t in tools * {DeleteProject, ManageAdr, IngestTraces};
      var run, events := TwoMutationsAtOnce(t);
    }
  }

  // ---------- The bridge ----------

  /** The module's mutable state; `calls` stands for the suspended functions. */
  class Bridge {
    var activeHeavyReads: int
    var heavyReadQueue: seq<nat>
    var activeMutationTool: Option<Tool>
    var calls: map<nat, Call>

    ghost function Snapshot(): State
      reads this
    {
      State(activeHeavyReads, heavyReadQueue, activeMutationTool, calls)
    }

    constructor ()
      ensures Snapshot() == IDLE
    {
      activeHeavyReads, heavyReadQueue, activeMutationTool, calls := 0, [], None, map[];
    }

    /** Grants a slot at once or joins the queue. */
    method AcquireHeavyReadSlot(id: nat) returns (granted: bool)
      modifies this`activeHeavyReads, this`heavyReadQueue
      ensures granted == (old(activeHeavyReads) < HEAVY_READ_CAPACITY)
      ensures activeHeavyReads == if granted then old(activeHeavyReads) + 1 else old(activeHeavyReads)
      ensures heavyReadQueue == if granted then old(heavyReadQueue) else old(heavyReadQueue) + [id]
    {
      if activeHeavyReads < HEAVY_READ_CAPACITY {
        activeHeavyReads := activeHeavyReads + 1;
        return true;
      }
      heavyReadQueue := heavyReadQueue + [id];
      return false;
    }

    method ReleaseHeavyReadSlot()
      requires Queued(Snapshot())
      modifies this
      ensures Snapshot() == Release(old(Snapshot()))
    {
      if activeHeavyReads > 0 { activeHeavyReads := activeHeavyReads - 1; }
      if heavyReadQueue == [] { return; }
      var next := heavyReadQueue[0];
      assert In(Snapshot(), next, Waiting);
      heavyReadQueue := heavyReadQueue[1..];
      activeHeavyReads := activeHeavyReads + 1;
      calls := calls[next := calls[next].(phase := Admitted)];
    }

    /** From the call up to its first await, or up to starting the process. */
    method Enter(id: nat, tool: Tool)
      requires id !in calls && Consistent(Snapshot())
      modifies this
      ensures Snapshot() == Step(old(Snapshot()), Event.Enter(id, tool)) && Consistent(Snapshot())
    {
      EnterKeeps(Snapshot(), id, tool);
      if Mutates(tool) && activeMutationTool.Some? {
        calls := calls[id := Call(tool, Answered(MutationBusy))];
        return;
      }
      if Heavy(tool) {
        var granted := AcquireHeavyReadSlot(id);
        calls := calls[id := Call(tool, if granted then Admitted else Waiting)];
        return;
      }
      if Mutates(tool) { activeMutationTool := Some(tool); }
      calls := calls[id := Call(tool, Running)];
    }

    /** After the await: the mutation is claimed without looking again, and the process starts. */
    method Resume(id: nat)
      requires In(Snapshot(), id, Admitted) && Consistent(Snapshot())
      modifies this
      ensures Snapshot() == Step(old(Snapshot()), Event.Resume(id)) && Consistent(Snapshot())
    {
      ResumeKeeps(Snapshot(), id);
      if Mutates(calls[id].tool) { activeMutationTool := Some(calls[id].tool); }
      calls := calls[id := calls[id].(phase := Running)];
    }

    /** The timer of a queued call fires. */
    method TimeOut(id: nat)
      requires In(Snapshot(), id, Waiting) && Consistent(Snapshot())
      modifies this
      ensures Snapshot() == Step(old(Snapshot()), Event.TimeOut(id)) && Consistent(Snapshot())
    {
      TimeOutKeeps(Snapshot(), id);
      heavyReadQueue := Without(heavyReadQueue, id);
      calls := calls[id := calls[id].(phase := Answered(Answer.QueueTimeout))];
    }

    /** The process ended, timed out or failed to start: the `finally` block. */
    method Finish(id: nat)
      requires In(Snapshot(), id, Running) && Consistent(Snapshot())
      modifies this
      ensures Snapshot() == Step(old(Snapshot()), Event.Finish(id)) && Consistent(Snapshot())
    {
      FinishKeeps(Snapshot(), id);
      AnswerKeeps(Snapshot(), id);
      var tool := calls[id].tool;
      if Mutates(tool) && activeMutationTool == Some(tool) { activeMutationTool := None; }
      calls := calls[id := calls[id].(phase := Answered(Finished))];
      if Heavy(tool) { ReleaseHeavyReadSlot(); }
    }
  }
}
