/**
 * Running the tools of a plan: `AssistantExecutor.execute` of `executor.py`, which dates later steps in
 * place, and `_execute_managed_tools` of `managed_tools.py`, which hands it one step at a time.
 */
module ManagedTools {
  import opened Common
  import opened TurnLifecycle

  // ---------------------------------------------------------------------------
  // Plans
  // ---------------------------------------------------------------------------

  /** An argument value: `None`, text, or anything else. */
  datatype Arg = Null | Text(text: string) | Other(id: int)

  type Arguments = map<string, Arg>

  datatype StepValue = StepValue(stepId: string, toolName: string, arguments: Arguments)

  class ToolPlanStep {
    const stepId: string
    const toolName: string
    var arguments: Arguments

    constructor (stepId: string, toolName: string, arguments: Arguments)
      ensures Value() == StepValue(stepId, toolName, arguments)
    {
      this.stepId := stepId;
      this.toolName := toolName;
      this.arguments := arguments;
    }

    function Value(): StepValue
      reads this
    {
      StepValue(stepId, toolName, arguments)
    }
  }

  /** What `plan_hash` hashes. */
  function PlanValue(plan: seq<ToolPlanStep>): (v: seq<StepValue>)
    reads plan
    ensures |v| == |plan| && forall i :: 0 <= i < |plan| ==> v[i] == plan[i].Value()
  {
    seq(|plan|, i requires 0 <= i < |plan| reads plan => plan[i].Value())
  }

  function GetArg(arguments: Arguments, key: string): Arg {
    if key in arguments then arguments[key] else Null
  }

  const PROVISION_TOOL := "data.ensure_current_symbol"
  const DEEP_TOOL := "analysis.deep_symbol"
  const CURRENT_SYMBOL_TOOL := "analysis.current_symbol"
  const ANALYSIS_TOOLS :=
    {"candidate.explain", "candidate.compare", "analysis.deep_symbol", "scenario.generate_research_plan"}

  predicate WantsDate(arguments: Arguments) {
    GetArg(arguments, "date") == Null || GetArg(arguments, "date") == Text("today")
  }

  datatype Session = Session(symbol: string, resolvedDate: string)

  /** `_with_provisioned_date`: the arguments the step is run with. */
  function WithProvisionedDate(step: StepValue, session: Option<Session>): Arguments {
    if session.None? || step.toolName != DEEP_TOOL || GetArg(step.arguments, "symbol") != Text(session.value.symbol)
       || !WantsDate(step.arguments)
    then step.arguments
    else step.arguments["date" := Text(session.value.resolvedDate)]
  }

  /** `_provisioned_session`: what a finished step provisions; `date` is its result's resolved date. */
  function ProvisionedSession(step: StepValue, date: Option<string>): Option<Session> {
    if step.toolName == PROVISION_TOOL && date.Some? && GetArg(step.arguments, "symbol").Text?
    then Some(Session(GetArg(step.arguments, "symbol").text, date.value))
    else None
  }

  // ---------------------------------------------------------------------------
  // Dating later steps in place
  // ---------------------------------------------------------------------------

  /** A step that `_apply_provisioned_date` writes to. */
  predicate IsRewritten(step: StepValue, session: Session) {
    && step.toolName in ANALYSIS_TOOLS
    && GetArg(step.arguments, "symbol") == Text(session.symbol)
    && WantsDate(step.arguments)
  }

  function Rewritten(step: StepValue, session: Session): StepValue {
    if IsRewritten(step, session)
    then step.(arguments := step.arguments["date" := Text(session.resolvedDate)])
    else step
  }

  /** A rewritten step asks for no date or for "today", so only "today" over "today" leaves it as it was. */
  predicate Unaffected(step: StepValue, session: Session) {
    IsRewritten(step, session) ==> session.resolvedDate == "today" && GetArg(step.arguments, "date") == Text("today")
  }

  lemma RewriteKeepsIff(step: StepValue, session: Session)
    ensures Rewritten(step, session) == step <==> Unaffected(step, session)
  {
    if IsRewritten(step, session) {
      var updated := step.arguments["date" := Text(session.resolvedDate)];
      assert updated["date"] == Text(session.resolvedDate);
      if Unaffected(step, session) {
        assert updated == step.arguments;
      }
    }
  }

  /** Rewriting twice is rewriting once, so a step that occurs twice in a plan comes out the same. */
  lemma RewritingIsIdempotent(step: StepValue, session: Session)
    ensures Rewritten(Rewritten(step, session), session) == Rewritten(step, session)
  {
    var once := Rewritten(step, session);
    if IsRewritten(once, session) {
      assert once.arguments["date" := Text(session.resolvedDate)] == once.arguments;
    }
  }

  /** A step after some sessions have been provisioned, one after the other. */
  function DatedBy(step: StepValue, sessions: seq<Session>): (r: StepValue)
    ensures r.stepId == step.stepId && r.toolName == step.toolName
    ensures GetArg(r.arguments, "symbol") == GetArg(step.arguments, "symbol")
  {
    if sessions == [] then step
    else Rewritten(DatedBy(step, sessions[..|sessions| - 1]), sessions[|sessions| - 1])
  }

  /** What a step that has been changed looks like: no later session changes it back. */
  ghost predicate IsStuck(step: StepValue, changed: StepValue) {
    && GetArg(changed.arguments, "date").Text?
    && (GetArg(step.arguments, "date") == Null || !WantsDate(changed.arguments))
    && WantsDate(step.arguments)
    && changed != step
  }

  lemma StuckStaysStuck(step: StepValue, changed: StepValue, session: Session)
    requires IsStuck(step, changed)
    ensures IsStuck(step, Rewritten(changed, session))
  {
  }

  lemma FirstChangeSticks(step: StepValue, session: Session)
    requires !Unaffected(step, session)
    ensures IsStuck(step, Rewritten(step, session))
  {
    RewriteKeepsIff(step, session);
  }

  lemma {:induction false} DatedByKeepsIff(step: StepValue, sessions: seq<Session>)
    ensures DatedBy(step, sessions) == step <==> KeepsStep(step, sessions)
    ensures DatedBy(step, sessions) != step ==> IsStuck(step, DatedBy(step, sessions))
  {
    if sessions != [] {
      var before, last := sessions[..|sessions| - 1], sessions[|sessions| - 1];
      assert sessions == before + [last];
      DatedByKeepsIff(step, before);
      if DatedBy(step, before) == step {
        RewriteKeepsIff(step, last);
        if !Unaffected(step, last) {
          FirstChangeSticks(step, last);
        }
      } else {
        StuckStaysStuck(step, DatedBy(step, before), last);
      }
    }
  }

  /** The loop of `_apply_provisioned_date`; one object may stand at several places of the plan. */
  method ApplyProvisionedDate(downstream: seq<ToolPlanStep>, session: Session)
    modifies downstream
    ensures forall step :: step in downstream ==> step.Value() == Rewritten(old(step.Value()), session)
  {
    for n := 0 to |downstream|
      invariant forall step :: step in downstream ==>
        step.Value() == old(step.Value()) || step.Value() == Rewritten(old(step.Value()), session)
      invariant forall i :: 0 <= i < n ==> downstream[i].Value() == Rewritten(old(downstream[i].Value()), session)
    {
      RewritingIsIdempotent(old(downstream[n].Value()), session);
      RewriteStep(downstream[n], session);
    }
  }

  method RewriteStep(step: ToolPlanStep, session: Session)
    modifies step
    ensures step.Value() == Rewritten(old(step.Value()), session)
  {
    if step.toolName in ANALYSIS_TOOLS && GetArg(step.arguments, "symbol") == Text(session.symbol)
       && WantsDate(step.arguments) {
      step.arguments := step.arguments["date" := Text(session.resolvedDate)];
    }
  }

  // ---------------------------------------------------------------------------
  // `AssistantExecutor.execute`
  // ---------------------------------------------------------------------------

  /** How running one step ends; `ready` is read of provisioning steps only. */
  datatype StepRun =
    | NoExecutor                          // the connection or the executor could not be made
    | NotCalled                           // policy or data readiness refused before the tool call
    | ToolRaised
    | Answered(ready: bool, resolvedDate: Option<string>)

  /** The tool answered, and `_assert_provisioning_ready` does not object. */
  predicate Succeeds(tool: string, run: StepRun) {
    run.Answered? && (tool == PROVISION_TOOL ==> run.ready)
  }

  /** What a step provisions for the steps after it. */
  function SessionFrom(step: StepValue, run: StepRun): Option<Session> {
    if Succeeds(step.toolName, run) then ProvisionedSession(step, run.resolvedDate) else None
  }

  /** The sessions the first `n` steps provision, in order. */
  function Sessions(steps: seq<StepValue>, run: nat -> StepRun, n: nat): seq<Session>
    requires n <= |steps|
  {
    if n == 0 then []
    else Sessions(steps, run, n - 1) + match SessionFrom(steps[n - 1], run(n - 1)) case Some(x) => [x] case None => []
  }

  /** How many steps succeed before one raises. */
  function Completed(steps: seq<StepValue>, run: nat -> StepRun, from: nat): (n: nat)
    requires from <= |steps|
    ensures from <= n <= |steps|
    ensures forall i :: from <= i < n ==> Succeeds(steps[i].toolName, run(i))
    ensures n < |steps| ==> !Succeeds(steps[n].toolName, run(n))
    decreases |steps| - from
  {
    if from == |steps| || !Succeeds(steps[from].toolName, run(from)) then from else Completed(steps, run, from + 1)
  }

  /** The last place of an object in a plan. */
  function LastIndex(plan: seq<ToolPlanStep>, step: ToolPlanStep): (n: nat)
    requires step in plan
    ensures n < |plan| && plan[n] == step && forall i :: n < i < |plan| ==> plan[i] != step
  {
    if plan[|plan| - 1] == step then |plan| - 1
    else
      assert plan == plan[..|plan| - 1] + [plan[|plan| - 1]];
      LastIndex(plan[..|plan| - 1], step)
  }

  function Min(a: nat, b: nat): nat {
    if a <= b then a else b
  }

  /**
   * The sessions that reach the object at `j` once `n` steps have succeeded: those provisioned before its last
   * place.
   */
  function SessionsReaching(plan: seq<ToolPlanStep>, steps: seq<StepValue>, run: nat -> StepRun, n: nat,
                            j: nat): seq<Session>
    requires |steps| == |plan| && n <= |plan| && j < |plan|
  {
    Sessions(steps, run, Min(n, LastIndex(plan, plan[j])))
  }

  /** The plan, whose steps were `steps` at first, after `n` successful steps. */
  ghost predicate IsDated(plan: seq<ToolPlanStep>, now: seq<StepValue>, steps: seq<StepValue>, run: nat -> StepRun,
                          n: nat)
    requires |now| == |steps| == |plan| && n <= |plan|
  {
    forall j :: 0 <= j < |plan| ==> now[j] == DatedBy(steps[j], SessionsReaching(plan, steps, run, n, j))
  }

  /** The arguments each of the first `n` steps is run with. */
  function ConnectedCalls(steps: seq<StepValue>, run: nat -> StepRun, n: nat): (calls: seq<Arguments>)
    requires n <= |steps|
    ensures |calls| == n
  {
    if n == 0 then []
    else ConnectedCalls(steps, run, n - 1) + [DatedBy(steps[n - 1], Sessions(steps, run, n - 1)).arguments]
  }

  /** How many steps are started: the completed ones, and the one that raises. */
  function Started(steps: seq<StepValue>, run: nat -> StepRun): nat {
    var n := Completed(steps, run, 0);
    if n < |steps| then n + 1 else n
  }

  ghost predicate KeepsStep(step: StepValue, sessions: seq<Session>) {
    forall x :: x in sessions ==> Unaffected(step, x)
  }

  /** No session reaches a step that it changes. */
  ghost predicate KeepsPlan(plan: seq<ToolPlanStep>, steps: seq<StepValue>, run: nat -> StepRun, n: nat)
    requires |steps| == |plan| && n <= |plan|
  {
    forall j :: 0 <= j < |plan| ==> KeepsStep(steps[j], SessionsReaching(plan, steps, run, n, j))
  }

  /**
   * `execute`: every ready provisioning step dates the steps after it, in place.  The plan's value is kept
   * exactly when no session reaches a step that it changes.
   */
  method ExecutePlan(plan: seq<ToolPlanStep>, run: nat -> StepRun) returns (done: nat, calls: seq<Arguments>)
    modifies plan
    ensures done == Completed(old(PlanValue(plan)), run, 0)
    ensures calls == ConnectedCalls(old(PlanValue(plan)), run, Started(old(PlanValue(plan)), run))
    ensures IsDated(plan, PlanValue(plan), old(PlanValue(plan)), run, done)
    ensures PlanValue(plan) == old(PlanValue(plan)) <==> KeepsPlan(plan, old(PlanValue(plan)), run, done)
  {
    ghost var steps := PlanValue(plan);
    done, calls := RunSteps(plan, run, steps);
    DatedPlanKeptIff(plan, PlanValue(plan), steps, run, done);
  }

  /** The loop of `execute`. */
  method RunSteps(plan: seq<ToolPlanStep>, run: nat -> StepRun, ghost steps: seq<StepValue>)
    returns (done: nat, calls: seq<Arguments>)
    requires steps == PlanValue(plan)
    modifies plan
    ensures done == Completed(steps, run, 0) && calls == ConnectedCalls(steps, run, Started(steps, run))
    ensures IsDated(plan, PlanValue(plan), steps, run, done)
  {
    NothingDated(plan, steps, run);
    calls, done := [], 0;
    while done < |plan|
      invariant done <= |plan| && Completed(steps, run, 0) == Completed(steps, run, done)
      invariant calls == ConnectedCalls(steps, run, done) && IsDated(plan, PlanValue(plan), steps, run, done)
    {
      OnlyEarlierSessions(plan, PlanValue(plan), steps, run, done);
      calls := calls + [plan[done].arguments];
      if !Succeeds(plan[done].toolName, run(done)) {
        return;
      }
      ProvisionAfter(plan, run, steps, done);
      done := done + 1;
    }
  }

  lemma NothingDated(plan: seq<ToolPlanStep>, steps: seq<StepValue>, run: nat -> StepRun)
    requires |steps| == |plan|
    ensures IsDated(plan, steps, steps, run, 0)
  {
    assert forall j :: 0 <= j < |plan| ==> SessionsReaching(plan, steps, run, 0, j) == [];
  }

  /** At its own turn a step has met all the sessions provisioned before it. */
  lemma OnlyEarlierSessions(plan: seq<ToolPlanStep>, now: seq<StepValue>, steps: seq<StepValue>, run: nat -> StepRun,
                            n: nat)
    requires |now| == |steps| == |plan| && n < |plan| && IsDated(plan, now, steps, run, n)
    ensures now[n] == DatedBy(steps[n], Sessions(steps, run, n)) && now[n].toolName == steps[n].toolName
    ensures SessionFrom(now[n], run(n)) == SessionFrom(steps[n], run(n))
  {
    assert LastIndex(plan, plan[n]) >= n;
    assert SessionsReaching(plan, steps, run, n, n) == Sessions(steps, run, n);
  }

  /** What a successful step does to the steps after it. */
  method ProvisionAfter(plan: seq<ToolPlanStep>, run: nat -> StepRun, ghost steps: seq<StepValue>, n: nat)
    requires |steps| == |plan| && n < |plan| && IsDated(plan, PlanValue(plan), steps, run, n)
    requires Succeeds(plan[n].toolName, run(n))
    modifies plan
    ensures IsDated(plan, PlanValue(plan), steps, run, n + 1)
  {
    OnlyEarlierSessions(plan, PlanValue(plan), steps, run, n);
    var session := ProvisionedSession(plan[n].Value(), run(n).resolvedDate);
    ghost var before := PlanValue(plan);
    if session.Some? {
      ApplyProvisionedDate(plan[n + 1..], session.value);
    }
    forall j | 0 <= j < |plan|
      ensures plan[j].Value() == AfterStep(plan, before, session, n, j)
    {
      IsDownstreamIff(plan, n, j);
    }
    OneMoreStep(plan, before, PlanValue(plan), steps, run, n);
  }

  /** The step at `j` after the step at `n` has provisioned `session`. */
  function AfterStep(plan: seq<ToolPlanStep>, before: seq<StepValue>, session: Option<Session>, n: nat,
                     j: nat): StepValue
    requires |before| == |plan| && j < |plan|
  {
    if session.Some? && LastIndex(plan, plan[j]) > n then Rewritten(before[j], session.value) else before[j]
  }

  lemma IsDownstreamIff(plan: seq<ToolPlanStep>, n: nat, j: nat)
    requires n < |plan| && j < |plan|
    ensures plan[j] in plan[n + 1..] <==> LastIndex(plan, plan[j]) > n
  {
    var last := LastIndex(plan, plan[j]);
    if last > n {
      assert plan[n + 1..][last - n - 1] == plan[j];
    }
  }

  lemma OneMoreStep(plan: seq<ToolPlanStep>, before: seq<StepValue>, now: seq<StepValue>, steps: seq<StepValue>,
                    run: nat -> StepRun, n: nat)
    requires |before| == |now| == |steps| == |plan| && n < |plan| && IsDated(plan, before, steps, run, n)
    requires forall j :: 0 <= j < |plan| ==> now[j] == AfterStep(plan, before, SessionFrom(steps[n], run(n)), n, j)
    ensures IsDated(plan, now, steps, run, n + 1)
  {
    forall j | 0 <= j < |plan|
      ensures now[j] == DatedBy(steps[j], SessionsReaching(plan, steps, run, n + 1, j))
    {
      OneMoreStepAt(before[j], now[j], steps, run, n, steps[j], LastIndex(plan, plan[j]));
    }
  }

  lemma OneMoreStepAt(before: StepValue, now: StepValue, steps: seq<StepValue>, run: nat -> StepRun, n: nat,
                      step: StepValue, last: nat)
    requires n < |steps| && before == DatedBy(step, Sessions(steps, run, Min(n, last)))
    requires now == match SessionFrom(steps[n], run(n))
                    case Some(x) => if last > n then Rewritten(before, x) else before
                    case None => before
    ensures now == DatedBy(step, Sessions(steps, run, Min(n + 1, last)))
  {
    if last > n {
      OneMoreSession(steps, run, n, step);
    }
  }

  lemma OneMoreSession(steps: seq<StepValue>, run: nat -> StepRun, n: nat, step: StepValue)
    requires n < |steps|
    ensures DatedBy(step, Sessions(steps, run, n + 1)) ==
      match SessionFrom(steps[n], run(n))
      case Some(x) => Rewritten(DatedBy(step, Sessions(steps, run, n)), x)
      case None => DatedBy(step, Sessions(steps, run, n))
  {
    var before := Sessions(steps, run, n);
    match SessionFrom(steps[n], run(n))
    case Some(x) => assert (before + [x])[..|before|] == before;
    case None => assert before + [] == before;
  }

  lemma DatedPlanKeptIff(plan: seq<ToolPlanStep>, now: seq<StepValue>, steps: seq<StepValue>, run: nat -> StepRun,
                         n: nat)
    requires |now| == |steps| == |plan| && n <= |plan| && IsDated(plan, now, steps, run, n)
    ensures now == steps <==> KeepsPlan(plan, steps, run, n)
  {
    forall j | 0 <= j < |plan|
      ensures now[j] == steps[j] <==> KeepsStep(steps[j], SessionsReaching(plan, steps, run, n, j))
    {
      DatedByKeepsIff(steps[j], SessionsReaching(plan, steps, run, n, j));
    }
  }

  /** A plan of one object has nothing downstream. */
  lemma OneStepPlan(plan: seq<ToolPlanStep>, steps: seq<StepValue>, run: nat -> StepRun, n: nat)
    requires |plan| == |steps| == 1 && n <= 1
    ensures KeepsPlan(plan, steps, run, n)
    ensures Completed(steps, run, 0) == if Succeeds(steps[0].toolName, run(0)) then 1 else 0
    ensures ConnectedCalls(steps, run, Started(steps, run)) == [steps[0].arguments]
  {
    assert LastIndex(plan, plan[0]) == 0;
    assert Sessions(steps, run, 0) == [];
    assert Started(steps, run) == 1;
  }

  // ---------------------------------------------------------------------------
  // The managed tool loop
  // ---------------------------------------------------------------------------

  /**
   * What the outside world decides: how each step's tool call ends, how the transaction that flushes its trace
   * ends, how the handler's transaction ends, and which tools have a WRITE permission.
   */
  datatype ToolSchedule = ToolSchedule(run: nat -> StepRun, flush: nat -> Tx, handler: Tx, writes: string -> bool)

  datatype TraceRow = Running | Succeeded | Failed

  /** A trace row and how many committed updates it has had. */
  datatype Trace = Trace(row: TraceRow, updates: nat)

  const NEW_TRACE := Trace(Running, 0)

  function Finish(t: Trace, row: TraceRow): Trace {
    Trace(row, t.updates + 1)
  }

  /** What became of what a tool wrote in its step's own transaction. */
  datatype Writes = NoWrites | Kept | RolledBackWrites

  /** A step whose tool call and trace flush share one transaction. */
  predicate IsWriteStep(tool: string, s: ToolSchedule) {
    tool != CURRENT_SYMBOL_TOOL && s.writes(tool)
  }

  /** What a failed step's executor still has to flush when the handler runs. */
  function Pending(tool: string, run: StepRun, flush: Tx): Option<TraceRow> {
    match run
    case NoExecutor => None
    case NotCalled => Some(Failed)
    case ToolRaised => Some(Failed)
    case Answered(_, _) => if !Succeeds(tool, run) || flush.BodyFailed? then Some(Succeeded) else None
  }

  predicate StepFails(tool: string, run: StepRun, flush: Tx) {
    !Succeeds(tool, run) || flush.Raises()
  }

  /** The flush of the step's trace committed with the step. */
  predicate Flushed(tool: string, run: StepRun, flush: Tx) {
    Succeeds(tool, run) && flush.Durable()
  }

  /** What becomes of the writes of a step that is run. */
  function WritesOf(tool: string, s: ToolSchedule, i: nat): Writes {
    if !IsWriteStep(tool, s) || s.run(i).NoExecutor? || s.run(i).NotCalled? then NoWrites
    else if Flushed(tool, s.run(i), s.flush(i)) then Kept
    else RolledBackWrites
  }

  datatype ToolsOutcome = AllRan | StepRaised(index: nat) | HandlerRaised(index: nat)

  /** The rows of a turn, what became of each step's tool writes, and the arguments of each step run. */
  datatype Progress = Progress(
    traces: seq<Trace>, writes: seq<Writes>, session: SessionStatus, turn: TurnStatus, calls: seq<Arguments>)

  function NewProgress(n: nat): Progress {
    Progress(seq(n, _ => NEW_TRACE), seq(n, _ => NoWrites), SessionPrepared, TurnPrepared, [])
  }

  /** The first `n` steps have run and succeeded, and nothing else has happened. */
  ghost predicate HasRun(p: Progress, steps: seq<StepValue>, s: ToolSchedule, n: nat)
    requires n <= |steps|
  {
    && |p.traces| == |p.writes| == |steps| && p.session.SessionPrepared? && p.turn.TurnPrepared?
    && (forall j :: 0 <= j < n ==>
         p.traces[j] == Trace(Succeeded, 1) && p.writes[j] == WritesOf(steps[j].toolName, s, j))
    && (forall j :: n <= j < |steps| ==> p.traces[j] == NEW_TRACE && p.writes[j] == NoWrites)
    && p.calls == ManagedCalls(steps, s, n)
  }

  /** What the rows, the tool writes and the calls are in the end. */
  ghost predicate HasEnded(p: Progress, steps: seq<StepValue>, s: ToolSchedule) {
    var f := FirstFailure(steps, s, 0);
    && |p.traces| == |p.writes| == |steps|
    && (forall j :: 0 <= j < |steps| ==>
          p.traces[j] == FinalTraceOf(steps, s, j) && p.writes[j] == FinalWritesOf(steps, s, j))
    && p.session == (if f < |steps| && s.handler.Durable() then SessionFailed else SessionPrepared)
    && p.turn == (if f < |steps| && s.handler.Durable() then TurnFailed else TurnPrepared)
    && p.calls == ManagedCalls(steps, s, CallCount(steps, s))
  }

  /** Running the step at `i`, without the handler. */
  function AfterRun(p: Progress, steps: seq<StepValue>, s: ToolSchedule, i: nat, session: Option<Session>): Progress
    requires i < |steps| == |p.traces| == |p.writes|
  {
    var tool := steps[i].toolName;
    p.(calls := if s.run(i).NoExecutor? then p.calls else p.calls + [WithProvisionedDate(steps[i], session)],
       traces :=
         if Flushed(tool, s.run(i), s.flush(i)) then p.traces[i := Finish(p.traces[i], Succeeded)] else p.traces,
       writes := p.writes[i := WritesOf(tool, s, i)])
  }

  /** What the handler of a failure at `i` does: all of it, or nothing. */
  ghost predicate IsHandled(p: Progress, q: Progress, tool: string, s: ToolSchedule, i: nat)
    requires i < |p.traces|
  {
    && |q.traces| == |p.traces| && q.writes == p.writes && q.calls == p.calls
    && if s.handler.Durable() then
         && q.session.SessionFailed? && q.turn.TurnFailed?
         && q.traces[i] == (match Pending(tool, s.run(i), s.flush(i))
                            case Some(row) => Finish(p.traces[i], row) case None => p.traces[i])
         && (forall j :: 0 <= j < i ==> q.traces[j] == p.traces[j])
         && (forall j :: i < j < |q.traces| ==> q.traces[j] == Finish(p.traces[j], Failed))
       else q == p
  }

  lemma NothingHasRun(steps: seq<StepValue>, s: ToolSchedule)
    ensures HasRun(NewProgress(|steps|), steps, s, 0)
  {
  }

  lemma StepSucceeded(p: Progress, steps: seq<StepValue>, s: ToolSchedule, i: nat)
    requires i < |steps| && HasRun(p, steps, s, i)
    requires !StepFails(steps[i].toolName, s.run(i), s.flush(i))
    ensures HasRun(AfterRun(p, steps, s, i, SessionBefore(steps, s, i)), steps, s, i + 1)
  {
    var ran := AfterRun(p, steps, s, i, SessionBefore(steps, s, i));
    assert ran.traces[i] == Trace(Succeeded, 1) && ran.writes[i] == WritesOf(steps[i].toolName, s, i);
    assert forall j :: 0 <= j < |steps| && j != i ==> ran.traces[j] == p.traces[j] && ran.writes[j] == p.writes[j];
  }

  lemma StepFailedAt(p: Progress, q: Progress, steps: seq<StepValue>, s: ToolSchedule, i: nat, j: nat)
    requires i < |steps| && HasRun(p, steps, s, i) && i == FirstFailure(steps, s, 0) && j < |steps|
    requires IsHandled(AfterRun(p, steps, s, i, SessionBefore(steps, s, i)), q, steps[i].toolName, s, i)
    ensures q.traces[j] == FinalTraceOf(steps, s, j) && q.writes[j] == FinalWritesOf(steps, s, j)
  {
    var ran := AfterRun(p, steps, s, i, SessionBefore(steps, s, i));
    assert j != i ==> ran.traces[j] == p.traces[j];
  }

  lemma StepFailed(p: Progress, q: Progress, steps: seq<StepValue>, s: ToolSchedule, i: nat)
    requires i < |steps| && HasRun(p, steps, s, i) && i == FirstFailure(steps, s, 0)
    requires IsHandled(AfterRun(p, steps, s, i, SessionBefore(steps, s, i)), q, steps[i].toolName, s, i)
    ensures HasEnded(q, steps, s)
  {
    forall j | 0 <= j < |steps|
      ensures q.traces[j] == FinalTraceOf(steps, s, j) && q.writes[j] == FinalWritesOf(steps, s, j)
    {
      StepFailedAt(p, q, steps, s, i, j);
    }
    if s.run(i).NoExecutor? {
      assert q.calls == ManagedCalls(steps, s, i);
    } else {
      assert q.calls == ManagedCalls(steps, s, i + 1);
    }
  }

  lemma AllSucceeded(p: Progress, steps: seq<StepValue>, s: ToolSchedule)
    requires HasRun(p, steps, s, |steps|) && FirstFailure(steps, s, 0) == |steps|
    ensures HasEnded(p, steps, s)
  {
  }

  class ToolLoop {
    var traces: seq<Trace>
    var writes: seq<Writes>
    var session: SessionStatus
    var turn: TurnStatus
    var calls: seq<Arguments>

    constructor (n: nat)
      ensures State() == NewProgress(n)
    {
      traces, writes := seq(n, _ => NEW_TRACE), seq(n, _ => NoWrites);
      session, turn, calls := SessionPrepared, TurnPrepared, [];
    }

    ghost function State(): Progress
      reads this
    {
      Progress(traces, writes, session, turn, calls)
    }

    /** `_execute_managed_tools`: the plan's own objects are handed to executors that date steps in place. */
    method Execute(plan: seq<ToolPlanStep>, s: ToolSchedule) returns (outcome: ToolsOutcome)
      requires State() == NewProgress(|plan|)
      modifies this, plan
      ensures PlanValue(plan) == old(PlanValue(plan))
      ensures outcome == OutcomeOf(old(PlanValue(plan)), s) && HasEnded(State(), old(PlanValue(plan)), s)
    {
      ghost var steps := PlanValue(plan);
      NothingHasRun(steps, s);
      outcome := RunAll(plan, steps, s);
    }

    /** The loop over the steps. */
    method RunAll(plan: seq<ToolPlanStep>, ghost steps: seq<StepValue>, s: ToolSchedule) returns (outcome: ToolsOutcome)
      requires steps == PlanValue(plan) && HasRun(State(), steps, s, 0)
      modifies this, plan
      ensures PlanValue(plan) == steps
      ensures outcome == OutcomeOf(steps, s) && HasEnded(State(), steps, s)
    {
      var provisioned: Option<Session> := None;
      var index := 0;
      while index < |plan|
        invariant index <= |plan| && PlanValue(plan) == steps
        invariant FirstFailure(steps, s, 0) == FirstFailure(steps, s, index)
        invariant HasRun(State(), steps, s, index) && provisioned == SessionBefore(steps, s, index)
      {
        var failed := TakeStep(plan, steps, s, index, provisioned);
        if failed {
          return if s.handler.Raises() then HandlerRaised(index) else StepRaised(index);
        }
        provisioned := Provisioned(plan, steps, s, index, provisioned);
        index := index + 1;
      }
      AllSucceeded(State(), steps, s);
      outcome := AllRan;
    }

    /** The session known after a successful step. */
    method Provisioned(plan: seq<ToolPlanStep>, ghost steps: seq<StepValue>, s: ToolSchedule, index: nat,
                       before: Option<Session>)
      returns (session: Option<Session>)
      requires index < |plan| && steps == PlanValue(plan) && before == SessionBefore(steps, s, index)
      requires !StepFails(steps[index].toolName, s.run(index), s.flush(index))
      ensures session == SessionBefore(steps, s, index + 1)
    {
      var resolved := ProvisionedSession(plan[index].Value(), s.run(index).resolvedDate);
      session := if resolved.Some? then resolved else before;
    }

    /** One turn of the loop, with the handler of its exception. */
    method TakeStep(plan: seq<ToolPlanStep>, ghost steps: seq<StepValue>, s: ToolSchedule, index: nat,
                    provisioned: Option<Session>)
      returns (failed: bool)
      requires index < |plan| && steps == PlanValue(plan) && FirstFailure(steps, s, 0) == FirstFailure(steps, s, index)
      requires HasRun(State(), steps, s, index) && provisioned == SessionBefore(steps, s, index)
      modifies this, plan
      ensures PlanValue(plan) == steps
      ensures failed == StepFails(steps[index].toolName, s.run(index), s.flush(index))
      ensures if failed then HasEnded(State(), steps, s) else HasRun(State(), steps, s, index + 1)
    {
      var sent := RunStep(plan, steps, plan[index], s.run(index), provisioned);
      failed := Record(steps, plan[index].toolName, s, index, sent, provisioned);
      assert PlanValue(plan) == steps;
    }

    /** The rows after the step's executor is done. */
    method Record(ghost steps: seq<StepValue>, tool: string, s: ToolSchedule, index: nat, sent: seq<Arguments>,
                  ghost provisioned: Option<Session>)
      returns (failed: bool)
      requires index < |steps| && tool == steps[index].toolName
      requires FirstFailure(steps, s, 0) == FirstFailure(steps, s, index)
      requires HasRun(State(), steps, s, index) && provisioned == SessionBefore(steps, s, index)
      requires sent == if s.run(index).NoExecutor? then [] else [WithProvisionedDate(steps[index], provisioned)]
      modifies this
      ensures failed == StepFails(tool, s.run(index), s.flush(index))
      ensures if failed then HasEnded(State(), steps, s) else HasRun(State(), steps, s, index + 1)
    {
      ghost var before := State();
      calls := calls + sent;
      if Flushed(tool, s.run(index), s.flush(index)) {
        traces := traces[index := Finish(traces[index], Succeeded)];
      }
      writes := writes[index := WritesOf(tool, s, index)];
      assert State() == AfterRun(before, steps, s, index, provisioned);
      failed := StepFails(tool, s.run(index), s.flush(index));
      if failed {
        HandleFailure(tool, s, index);
        StepFailed(before, State(), steps, s, index);
      } else {
        StepSucceeded(before, steps, s, index);
      }
    }

    /** The handler: one transaction flushes what is pending, fails the later traces, the session and the turn. */
    method HandleFailure(tool: string, s: ToolSchedule, index: nat)
      requires index < |traces|
      modifies this`traces, this`session, this`turn
      ensures IsHandled(old(State()), State(), tool, s, index)
    {
      if s.handler.Durable() {
        match Pending(tool, s.run(index), s.flush(index)) {
          case Some(row) => traces := traces[index := Finish(traces[index], row)];
          case None =>
        }
        ghost var before := traces;
        for j := index + 1 to |traces|
          invariant |traces| == |before|
          invariant forall i :: 0 <= i <= index ==> traces[i] == before[i]
          invariant forall i :: index < i < j ==> traces[i] == Finish(before[i], Failed)
          invariant forall i :: j <= i < |traces| ==> traces[i] == before[i]
        {
          traces := traces[j := Finish(traces[j], Failed)];
        }
        session, turn := SessionFailed, TurnFailed;
      }
    }
  }

  /** `_with_provisioned_date`: the step itself, or a copy with the provisioned date. */
  method DatedStep(step: ToolPlanStep, session: Option<Session>) returns (r: ToolPlanStep)
    ensures r.Value() == step.Value().(arguments := WithProvisionedDate(step.Value(), session))
    ensures r == step || fresh(r)
  {
    if session.None? || step.toolName != DEEP_TOOL || GetArg(step.arguments, "symbol") != Text(session.value.symbol)
       || !WantsDate(step.arguments) {
      r := step;
    } else {
      r := new ToolPlanStep(step.stepId, step.toolName, step.arguments["date" := Text(session.value.resolvedDate)]);
    }
  }

  /**
   * One step, run by an executor of its own on the plan that holds just this step: the prepared object itself,
   * unless `_with_provisioned_date` made a copy.
   */
  method RunStep(plan: seq<ToolPlanStep>, ghost steps: seq<StepValue>, step: ToolPlanStep, run: StepRun,
                 provisioned: Option<Session>)
    returns (sent: seq<Arguments>)
    requires step in plan && steps == PlanValue(plan)
    modifies plan
    ensures PlanValue(plan) == steps
    ensures sent == if run.NoExecutor? then [] else [WithProvisionedDate(old(step.Value()), provisioned)]
  {
    if run.NoExecutor? {
      return [];
    }
    var executable := DatedStep(step, provisioned);
    sent := ExecuteOne(plan, steps, executable, run);
  }

  /** `executor.execute(step_plan)`: `execute` on a plan of one object, which may be the prepared one. */
  method ExecuteOne(plan: seq<ToolPlanStep>, ghost steps: seq<StepValue>, executable: ToolPlanStep, run: StepRun)
    returns (calls: seq<Arguments>)
    requires steps == PlanValue(plan)
    modifies plan, executable
    ensures PlanValue(plan) == steps
    ensures calls == [old(executable.Value()).arguments]
  {
    ghost var one := PlanValue([executable]);
    var n, sent := ExecutePlan([executable], (i: nat) => run);
    OneStepPlan([executable], one, (i: nat) => run, n);
    assert PlanValue([executable])[0] == one[0];
    assert forall j :: 0 <= j < |plan| ==> plan[j].Value() == steps[j];
    calls := sent;
  }

  /** The first step at or after `from` that fails, or the length of the plan. */
  function FirstFailure(steps: seq<StepValue>, s: ToolSchedule, from: nat): (f: nat)
    requires from <= |steps|
    ensures from <= f <= |steps|
    ensures forall i :: from <= i < f ==> !StepFails(steps[i].toolName, s.run(i), s.flush(i))
    ensures f < |steps| ==> StepFails(steps[f].toolName, s.run(f), s.flush(f))
    decreases |steps| - from
  {
    if from == |steps| || StepFails(steps[from].toolName, s.run(from), s.flush(from)) then from
    else FirstFailure(steps, s, from + 1)
  }

  function OutcomeOf(steps: seq<StepValue>, s: ToolSchedule): ToolsOutcome {
    var f := FirstFailure(steps, s, 0);
    if f == |steps| then AllRan else if s.handler.Raises() then HandlerRaised(f) else StepRaised(f)
  }

  /** No step after the first failure is run. */
  function CallCount(steps: seq<StepValue>, s: ToolSchedule): (count: nat)
    ensures count <= |steps|
  {
    var f := FirstFailure(steps, s, 0);
    if f < |steps| && !s.run(f).NoExecutor? then f + 1 else f
  }

  /** The trace row of step `j` in the end. */
  function FinalTraceOf(steps: seq<StepValue>, s: ToolSchedule, j: nat): Trace
    requires j < |steps|
  {
    var f, tool := FirstFailure(steps, s, 0), steps[j].toolName;
    if j < f then Trace(Succeeded, 1)
    else if j == f then
      if Flushed(tool, s.run(f), s.flush(f)) then Trace(Succeeded, 1)
      else if s.handler.Durable() && Pending(tool, s.run(f), s.flush(f)).Some?
      then Trace(Pending(tool, s.run(f), s.flush(f)).value, 1)
      else NEW_TRACE
    else if s.handler.Durable() then Trace(Failed, 1)
    else NEW_TRACE
  }

  /** What became of the tool writes of step `j` in the end. */
  function FinalWritesOf(steps: seq<StepValue>, s: ToolSchedule, j: nat): Writes
    requires j < |steps|
  {
    if j <= FirstFailure(steps, s, 0) then WritesOf(steps[j].toolName, s, j) else NoWrites
  }

  /** The latest session provisioned before step `i`. */
  function SessionBefore(steps: seq<StepValue>, s: ToolSchedule, i: nat): Option<Session>
    requires i <= |steps|
  {
    if i == 0 then None
    else
      var here := SessionFrom(steps[i - 1], s.run(i - 1));
      if here.Some? then here else SessionBefore(steps, s, i - 1)
  }

  function ManagedCalls(steps: seq<StepValue>, s: ToolSchedule, n: nat): (calls: seq<Arguments>)
    requires n <= |steps|
    ensures |calls| == n
  {
    if n == 0 then []
    else ManagedCalls(steps, s, n - 1) + [WithProvisionedDate(steps[n - 1], SessionBefore(steps, s, n - 1))]
  }

  // ---------------------------------------------------------------------------
  // What the tools are called with
  // ---------------------------------------------------------------------------

  /** The step at `i` is a ready provisioning step, of this symbol and with this resolved date. */
  predicate ProvisionsAt(steps: seq<StepValue>, run: nat -> StepRun, i: nat, symbol: string, date: string)
    requires i < |steps|
  {
    && steps[i].toolName == "data.ensure_current_symbol"
    && "symbol" in steps[i].arguments && steps[i].arguments["symbol"] == Text(symbol)
    && run(i) == StepRun.Answered(true, Some(date))
  }

  /** No step of the stretch provisions anything. */
  ghost predicate NothingProvisioned(steps: seq<StepValue>, run: nat -> StepRun, from: nat, to: nat)
    requires to <= |steps|
  {
    forall k, symbol, date :: from <= k < to ==> !ProvisionsAt(steps, run, k, symbol, date)
  }

  /** The step names this symbol and leaves the date open: it has none, `None` or "today". */
  predicate LeavesDateOpen(step: StepValue, symbol: string) {
    && "symbol" in step.arguments && step.arguments["symbol"] == Text(symbol)
    && ("date" in step.arguments ==> step.arguments["date"] == Null || step.arguments["date"] == Text("today"))
  }

  lemma ProvisionsIff(steps: seq<StepValue>, run: nat -> StepRun, i: nat, symbol: string, date: string)
    requires i < |steps|
    ensures ProvisionsAt(steps, run, i, symbol, date) <==> SessionFrom(steps[i], run(i)) == Some(Session(symbol, date))
  {
  }

  lemma NoSessionFrom(steps: seq<StepValue>, run: nat -> StepRun, from: nat, to: nat, k: nat)
    requires to <= |steps| && NothingProvisioned(steps, run, from, to) && from <= k < to
    ensures SessionFrom(steps[k], run(k)).None?
  {
    if SessionFrom(steps[k], run(k)).Some? {
      var x := SessionFrom(steps[k], run(k)).value;
      ProvisionsIff(steps, run, k, x.symbol, x.resolvedDate);
    }
  }

  lemma {:induction false} LatestSession(steps: seq<StepValue>, s: ToolSchedule, i: nat, j: nat)
    requires i < j <= |steps| && SessionFrom(steps[i], s.run(i)).Some?
    requires NothingProvisioned(steps, s.run, i + 1, j)
    ensures SessionBefore(steps, s, j) == SessionFrom(steps[i], s.run(i))
    decreases j
  {
    if i + 1 < j {
      NoSessionFrom(steps, s.run, i + 1, j, j - 1);
      LatestSession(steps, s, i, j - 1);
    }
  }

  lemma {:induction false} NoSession(steps: seq<StepValue>, s: ToolSchedule, j: nat)
    requires j <= |steps| && NothingProvisioned(steps, s.run, 0, j)
    ensures SessionBefore(steps, s, j).None?
  {
    if j > 0 {
      NoSessionFrom(steps, s.run, 0, j, j - 1);
      NoSession(steps, s, j - 1);
    }
  }

  lemma {:induction false} ManagedCallAt(steps: seq<StepValue>, s: ToolSchedule, n: nat, j: nat)
    requires j < n <= |steps|
    ensures ManagedCalls(steps, s, n)[j] == WithProvisionedDate(steps[j], SessionBefore(steps, s, j))
  {
    if j < n - 1 {
      ManagedCallAt(steps, s, n - 1, j);
    }
  }

  /**
   * A managed deep analysis whose date is open is run with the date that the latest ready provisioning step before
   * it resolved, if that step provisioned the same symbol; every other argument, and every other call, is the plan's.
   */
  lemma ManagedCallIsDated(p: Progress, steps: seq<StepValue>, s: ToolSchedule, i: nat, j: nat, symbol: string,
                           date: string)
    requires HasEnded(p, steps, s) && i < j < |p.calls|
    requires ProvisionsAt(steps, s.run, i, symbol, date) && NothingProvisioned(steps, s.run, i + 1, j)
    ensures p.calls[j] ==
      if steps[j].toolName == "analysis.deep_symbol" && LeavesDateOpen(steps[j], symbol)
      then steps[j].arguments["date" := Text(date)] else steps[j].arguments
  {
    ProvisionsIff(steps, s.run, i, symbol, date);
    LatestSession(steps, s, i, j);
    ManagedCallAt(steps, s, |p.calls|, j);
  }

  /** Without a provisioning step before it, a step is run as the plan says. */
  lemma ManagedCallIsPlanned(p: Progress, steps: seq<StepValue>, s: ToolSchedule, j: nat)
    requires HasEnded(p, steps, s) && j < |p.calls|
    requires NothingProvisioned(steps, s.run, 0, j)
    ensures p.calls[j] == steps[j].arguments
  {
    NoSession(steps, s, j);
    ManagedCallAt(steps, s, |p.calls|, j);
  }

  /** The tools whose open dates the connected execution fills in. */
  predicate IsDatable(step: StepValue, symbol: string) {
    && step.toolName in {"candidate.explain", "candidate.compare", "analysis.deep_symbol",
                         "scenario.generate_research_plan"}
    && LeavesDateOpen(step, symbol)
  }

  lemma RewrittenIs(step: StepValue, x: Session)
    ensures Rewritten(step, x) ==
      if IsDatable(step, x.symbol) then step.(arguments := step.arguments["date" := Text(x.resolvedDate)]) else step
  {
  }

  /** The first date other than "today" that the sessions resolve for a symbol. */
  function FirstDate(sessions: seq<Session>, symbol: string): Option<string> {
    if sessions == [] then None
    else if sessions[0].symbol == symbol && sessions[0].resolvedDate != "today" then Some(sessions[0].resolvedDate)
    else FirstDate(sessions[1..], symbol)
  }

  lemma {:induction false} FirstDateIsFixed(sessions: seq<Session>, symbol: string)
    ensures FirstDate(sessions, symbol) != Some("today")
  {
    if sessions != [] {
      FirstDateIsFixed(sessions[1..], symbol);
    }
  }

  lemma {:induction false} FirstDateOneMore(before: seq<Session>, last: Session, symbol: string)
    ensures FirstDate(before + [last], symbol) ==
      if FirstDate(before, symbol).Some? then FirstDate(before, symbol)
      else if last.symbol == symbol && last.resolvedDate != "today" then Some(last.resolvedDate) else None
  {
    if before == [] {
      assert [last][1..] == [];
    } else {
      assert (before + [last])[1..] == before[1..] + [last];
      FirstDateOneMore(before[1..], last, symbol);
    }
  }

  /**
   * In the connected execution a step takes the date of the first session of its symbol, not of the latest, unless
   * that date is the text "today", which leaves it open for the next.
   */
  lemma {:induction false} FirstSessionDates(step: StepValue, sessions: seq<Session>, symbol: string)
    requires IsDatable(step, symbol)
    ensures DatedBy(step, sessions).arguments == match FirstDate(sessions, symbol)
      case Some(date) => step.arguments["date" := Text(date)]
      case None => if exists x :: x in sessions && x.symbol == symbol then step.arguments["date" := Text("today")]
                   else step.arguments
  {
    if sessions != [] {
      var before, last := sessions[..|sessions| - 1], sessions[|sessions| - 1];
      assert sessions == before + [last];
      FirstSessionDates(step, before, symbol);
      FirstDateOneMore(before, last, symbol);
      RewrittenIs(DatedBy(step, before), last);
      var date := Text(last.resolvedDate);
      assert DatedBy(step, before).arguments["date" := date] == step.arguments["date" := date];
      if FirstDate(before, symbol).Some? {
        assert DatedBy(step, before).arguments["date"] == Text(FirstDate(before, symbol).value);
        FirstDateIsFixed(before, symbol);
      }
    }
  }

  /** A step that no open date of a datable tool invites is left alone. */
  lemma {:induction false} OthersKeepTheirDate(step: StepValue, sessions: seq<Session>)
    requires forall x :: x in sessions ==> !IsDatable(step, x.symbol)
    ensures DatedBy(step, sessions) == step
  {
    if sessions != [] {
      var before, last := sessions[..|sessions| - 1], sessions[|sessions| - 1];
      assert sessions == before + [last];
      OthersKeepTheirDate(step, before);
      RewrittenIs(step, last);
    }
  }

  // ---------------------------------------------------------------------------
  // How the loop ends
  // ---------------------------------------------------------------------------

  /** The tool answered, provisioning is ready, and the trace was flushed and committed without a complaint. */
  predicate GoesWell(steps: seq<StepValue>, s: ToolSchedule, j: nat)
    requires j < |steps|
  {
    && s.run(j).Answered? && (steps[j].toolName == "data.ensure_current_symbol" ==> s.run(j).ready)
    && s.flush(j).Committed?
  }

  /** The steps up to the first that does not go well are run, and no more; the outcome names that step. */
  lemma LoopStopsAtFirstFailure(p: Progress, steps: seq<StepValue>, s: ToolSchedule)
    requires HasEnded(p, steps, s)
    ensures OutcomeOf(steps, s).AllRan? <==> forall j :: 0 <= j < |steps| ==> GoesWell(steps, s, j)
    ensures OutcomeOf(steps, s).AllRan? ==> |p.calls| == |steps|
    ensures !OutcomeOf(steps, s).AllRan? ==>
      var f := OutcomeOf(steps, s).index;
      && f < |steps| && !GoesWell(steps, s, f) && (forall j :: 0 <= j < f ==> GoesWell(steps, s, j))
      && |p.calls| == (if s.run(f).NoExecutor? then f else f + 1)
      && (OutcomeOf(steps, s).HandlerRaised? <==> !s.handler.Committed?)
  {
    var f := FirstFailure(steps, s, 0);
    if f < |steps| {
      assert !GoesWell(steps, s, f);
    }
  }

  /** The session and the turn are failed together, exactly when a step fails and the handler's commit lasts. */
  lemma FailureIsRecordedIff(p: Progress, steps: seq<StepValue>, s: ToolSchedule)
    requires HasEnded(p, steps, s)
    ensures p.session.SessionFailed? <==> p.turn.TurnFailed?
    ensures p.session.SessionFailed? <==>
      (s.handler.Committed? || s.handler.CommittedThenRaised?)
      && exists j :: 0 <= j < |steps| && !GoesWell(steps, s, j)
    ensures p.session.SessionFailed? || (p.session.SessionPrepared? && p.turn.TurnPrepared?)
  {
    LoopStopsAtFirstFailure(p, steps, s);
  }

  /** A trace and the tool writes of a step, when the handler's transaction is lost. */
  lemma LostHandlerLeavesTraces(p: Progress, steps: seq<StepValue>, s: ToolSchedule, j: nat)
    requires HasEnded(p, steps, s) && j < |steps| && !s.handler.Durable()
    ensures p.traces[j] ==
      if (forall i :: 0 <= i < j ==> GoesWell(steps, s, i))
         && (GoesWell(steps, s, j) || (s.flush(j).CommittedThenRaised? && Succeeds(steps[j].toolName, s.run(j))))
      then Trace(Succeeded, 1) else Trace(Running, 0)
  {
    LoopStopsAtFirstFailure(p, steps, s);
  }

  /** Tool writes are kept exactly of write steps that were reached, answered and committed with their trace. */
  lemma WritesAreKeptIff(p: Progress, steps: seq<StepValue>, s: ToolSchedule, j: nat)
    requires HasEnded(p, steps, s) && j < |steps|
    ensures p.writes[j].Kept? <==>
      && (forall i :: 0 <= i < j ==> GoesWell(steps, s, i))
      && steps[j].toolName != "analysis.current_symbol" && s.writes(steps[j].toolName)
      && (GoesWell(steps, s, j) || (s.flush(j).CommittedThenRaised? && Succeeds(steps[j].toolName, s.run(j))))
  {
    LoopStopsAtFirstFailure(p, steps, s);
  }

  // ---------------------------------------------------------------------------
  // What the trace rows say
  // ---------------------------------------------------------------------------

  /**
   * If step `f` fails first and the handler's transaction lasts, the traces before it read SUCCESS and
   * those after it FAILED, each after exactly one committed update.  The failing step's own trace stays
   * RUNNING exactly when no executor was made or its flush was lost at commit, and reads SUCCESS exactly when
   * the tool answered and the flush was not lost.
   */
  lemma TracePartition(steps: seq<StepValue>, s: ToolSchedule, j: nat)
    requires FirstFailure(steps, s, 0) < |steps| && j < |steps| && s.handler.Durable()
    ensures var f := FirstFailure(steps, s, 0);
      var lost := Succeeds(steps[f].toolName, s.run(f)) && s.flush(f).RolledBack?;
      && (j != f ==> FinalTraceOf(steps, s, j) == Trace(if j < f then Succeeded else Failed, 1))
      && FinalTraceOf(steps, s, f).updates <= 1
      && (FinalTraceOf(steps, s, f).row.Running? <==> s.run(f).NoExecutor? || lost)
      && (FinalTraceOf(steps, s, f).row.Succeeded? <==> s.run(f).Answered? && !lost)
  {
  }

  /** Every trace row of a failed plan is finished iff the handler lasts and the failing step's trace was not lost. */
  lemma AllTracesFinishedIff(steps: seq<StepValue>, s: ToolSchedule)
    requires FirstFailure(steps, s, 0) + 1 < |steps|
    ensures var f := FirstFailure(steps, s, 0);
      (forall j :: 0 <= j < |steps| ==> !FinalTraceOf(steps, s, j).row.Running?)
      <==> && s.handler.Durable() && !s.run(f).NoExecutor?
           && !(Succeeds(steps[f].toolName, s.run(f)) && s.flush(f).RolledBack?)
  {
    var f := FirstFailure(steps, s, 0);
    if !s.handler.Durable() {
      assert FinalTraceOf(steps, s, |steps| - 1).row.Running?;
    } else {
      TracePartition(steps, s, f);
      assert forall j :: 0 <= j < |steps| && j != f ==> !FinalTraceOf(steps, s, j).row.Running?;
    }
  }

  /**
   * A step's trace reads SUCCESS beside tool writes that were rolled back exactly when it is the failing step, a
   * write step whose tool answered, the answer was refused as not ready or the flush raised inside the shared
   * transaction, and the handler's transaction lasts.
   */
  lemma SuccessBesideLostWritesIff(steps: seq<StepValue>, s: ToolSchedule, j: nat)
    requires j < |steps|
    ensures FinalTraceOf(steps, s, j).row.Succeeded? && FinalWritesOf(steps, s, j).RolledBackWrites? <==>
      && j == FirstFailure(steps, s, 0) && IsWriteStep(steps[j].toolName, s) && s.run(j).Answered?
      && (!Succeeds(steps[j].toolName, s.run(j)) || s.flush(j).BodyFailed?)
      && s.handler.Durable()
  {
  }

  /** Conversely, writes that were kept always have a SUCCESS row beside them. */
  lemma KeptWritesAreTraced(steps: seq<StepValue>, s: ToolSchedule, j: nat)
    requires j < |steps| && FinalWritesOf(steps, s, j).Kept?
    ensures FinalTraceOf(steps, s, j) == Trace(Succeeded, 1)
  {
  }

  /** Provisioning that was not ready: its writes are gone, its trace reads SUCCESS. */
  lemma RefusedProvisioningReadsSuccess(s: ToolSchedule)
    requires s.writes(PROVISION_TOOL) && s.run(0) == StepRun.Answered(false, None) && s.handler.Committed?
    ensures var steps := [StepValue("s1", PROVISION_TOOL, map["symbol" := Text("FPT")])];
      && FinalWritesOf(steps, s, 0).RolledBackWrites? && FinalTraceOf(steps, s, 0) == Trace(Succeeded, 1)
  {
    var steps := [StepValue("s1", PROVISION_TOOL, map["symbol" := Text("FPT")])];
    assert FirstFailure(steps, s, 0) == 0;
  }

  // ---------------------------------------------------------------------------
  // The two executions side by side
  // ---------------------------------------------------------------------------

  /** A ready provisioning step changes a later step of the same plan in the connected execution. */
  lemma ConnectedExecutionChangesPlan(plan: seq<ToolPlanStep>, run: nat -> StepRun)
    requires |plan| == 2 && plan[0] != plan[1]
    requires run(0) == StepRun.Answered(true, Some("2024-05-10")) && run(1).Answered?
    requires plan[0].toolName == PROVISION_TOOL && plan[1].toolName == DEEP_TOOL
    ensures var steps := [
        StepValue("s1", PROVISION_TOOL, map["symbol" := Text("FPT")]),
        StepValue("s2", DEEP_TOOL, map["symbol" := Text("FPT")])];
      Completed(steps, run, 0) == 2 && !KeepsPlan(plan, steps, run, 2)
  {
    var first := StepValue("s1", PROVISION_TOOL, map["symbol" := Text("FPT")]);
    var second := StepValue("s2", DEEP_TOOL, map["symbol" := Text("FPT")]);
    var steps := [first, second];
    assert Completed(steps, run, 2) == 2 && Completed(steps, run, 1) == 2;
    assert LastIndex(plan, plan[1]) == 1;
    var x := Session("FPT", "2024-05-10");
    assert Sessions(steps, run, 0) == [] && Sessions(steps, run, 1) == [x];
    assert !Unaffected(second, x);
    assert x in SessionsReaching(plan, steps, run, 2, 1);
    assert !KeepsStep(steps[1], SessionsReaching(plan, steps, run, 2, 1));
  }
}
