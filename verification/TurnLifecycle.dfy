/**
 * One prepared assistant turn, executed stage by stage over a warehouse whose every transaction may
 * fail on its own: `ManagedAssistantExecution.execute_prepared` of `managed_execute.py`.
 */
module TurnLifecycle {
  import opened Common

  /**
   * How a `with coordinator.transaction()` block ends.  The body may raise; the commit may be lost; or
   * closing the connection or the lock may raise after the commit (`write_coordinator.py`, lines 85-106).
   */
  datatype Tx = Committed | BodyFailed | RolledBack | CommittedThenRaised {
    predicate Durable() { Committed? || CommittedThenRaised? }
    predicate Raises() { !Committed? }
    predicate BodyRan() { !BodyFailed? }
  }

  /** The transactions of one execution, each run at most once. */
  datatype Site =
    | RefuseMismatch
    | CreateToolTraces | FailTurn | FailSession
    | CreateTrace | FailTrace | FinishTrace
    | PersistAudit | ProjectEvidence | DiagnoseTrace
    | FinishTurn | DiagnoseTraceAfterTurn
    | FinishSession | DiagnoseTraceAfterSession

  datatype Tools = ToolsSucceed | ToolsFail(handler: Tx)
  datatype Synthesis = Answered(degraded: bool) | SynthesisFails

  /** Everything the outside world decides about one execution. */
  datatype Schedule = Schedule(
    hashMatches: bool, research: bool, tools: Tools, synthesis: Synthesis, projects: bool, tx: Site -> Tx)

  datatype SessionStatus = SessionPrepared | SessionSuccess | SessionDegraded | SessionFailed | SessionInvalid
  datatype TurnStatus = TurnPrepared | TurnExecuted | TurnFailed | TurnMismatched
  datatype TraceStatus = TraceRunning | TraceSuccess | TraceDegraded | TraceFailed

  datatype Category =
    | SYNTHESIZER_FALLBACK | SYNTHESIS_TRACE_CREATE_FAILURE | SYNTHESIS_TRACE_PERSIST_FAILURE
    | AUDIT_PERSIST_FAILURE | KNOWLEDGE_PROJECTION_FAILURE | SESSION_FINALIZE_FAILURE

  /** The parts of an answer's research metadata that the lifecycle writes. */
  datatype Answer = Answer(degradation: bool, degradations: seq<Category>, auditId: bool)

  datatype Outcome =
    | Returned(answer: Answer, status: SessionStatus)
    | MismatchRaised
    | PersistenceRaised
    | LifecycleRaised

  /** The committed rows. */
  datatype Rows = Rows(
    session: SessionStatus, storedAnswer: Option<Answer>, turn: TurnStatus, trace: Option<TraceStatus>,
    audit: bool, projection: bool)

  const NEW_TURN := Rows(SessionPrepared, None, TurnPrepared, None, false, false)

  /** `with_degradation`. */
  function WithDegradation(answer: Answer, category: Category): Answer {
    answer.(degradation := true, degradations := answer.degradations + [category])
  }

  function TraceStatusOf(status: SessionStatus): TraceStatus {
    if status.SessionSuccess? then TraceSuccess else TraceDegraded
  }

  class ManagedTurn {
    var rows: Rows

    constructor ()
      ensures rows == NEW_TURN
    {
      rows := NEW_TURN;
    }

    /** `finish_llm_trace`: an update, without effect when no row was committed. */
    method UpdateTrace(s: Schedule, site: Site, status: TraceStatus) returns (raised: bool)
      modifies this
      ensures raised == s.tx(site).Raises()
      ensures rows == if s.tx(site).Durable() && old(rows).trace.Some? then old(rows).(trace := Some(status))
        else old(rows)
    {
      if s.tx(site).Durable() && rows.trace.Some? {
        rows := rows.(trace := Some(status));
      }
      raised := s.tx(site).Raises();
    }

    /** The two transactions every failure path ends with; their own failures are only logged. */
    method FailTurnAndSession(s: Schedule)
      modifies this
      ensures rows == FailedRows(old(rows), s)
    {
      if s.tx(FailTurn).Durable() {
        rows := rows.(turn := TurnFailed);
      }
      if s.tx(FailSession).Durable() {
        rows := rows.(session := SessionFailed);
      }
    }

    /** `execute_prepared`. */
    method ExecutePrepared(s: Schedule) returns (outcome: Outcome)
      requires rows == NEW_TURN
      modifies this
      ensures (rows, outcome) == Final(s)
    {
      if !s.hashMatches {
        if s.tx(RefuseMismatch).Durable() {
          rows := rows.(turn := TurnMismatched, session := SessionInvalid);
        }
        return if s.tx(RefuseMismatch).Raises() then PersistenceRaised else MismatchRaised;
      }
      if s.tx(CreateToolTraces).Raises() {
        FailTurnAndSession(s);
        return LifecycleRaised;
      }
      if s.tools.ToolsFail? {
        // The tool loop's own handler has failed the session and the turn in one transaction.
        if s.tools.handler.Durable() {
          rows := rows.(session := SessionFailed, turn := TurnFailed);
        }
        FailTurnAndSession(s);
        return LifecycleRaised;
      }
      outcome := SynthesizeAndRecord(s);
    }

    /** From the synthesis trace to the session row. */
    method SynthesizeAndRecord(s: Schedule) returns (outcome: Outcome)
      requires rows == NEW_TURN
      requires s.hashMatches && !s.tx(CreateToolTraces).Raises() && s.tools.ToolsSucceed?
      modifies this
      ensures (rows, outcome) == Final(s)
    {
      // The trace id is assigned inside the transaction, so it outlives a lost commit.
      var traceKnown := s.tx(CreateTrace).BodyRan();
      var traceCreationFailed := s.tx(CreateTrace).Raises();
      if s.tx(CreateTrace).Durable() {
        rows := rows.(trace := Some(TraceRunning));
      }
      if s.synthesis.SynthesisFails? {
        if traceKnown {
          var _ := UpdateTrace(s, FailTrace, TraceFailed);
        }
        FailTurnAndSession(s);
        return LifecycleRaised;
      }
      var answer, status := RecordSynthesis(s, traceKnown, traceCreationFailed);
      answer, status := PersistEvidence(s, answer, status);
      if traceKnown && answer.degradation {
        var _ := UpdateTrace(s, DiagnoseTrace, TraceStatusOf(status));
      }
      assert rows ==
        NEW_TURN.(trace := TraceBeforeFinalize(s), audit := AuditCommitted(s), projection := ProjectionCommitted(s));
      answer, status := FinalizeStages(s, traceKnown, answer, status);
      assert CategoriesBeforeFinalize(s) + [] == CategoriesBeforeFinalize(s);
      return Returned(answer, status);
    }

    /** From the synthesized answer to the first finish of its trace. */
    method RecordSynthesis(s: Schedule, traceKnown: bool, traceCreationFailed: bool)
      returns (answer: Answer, status: SessionStatus)
      requires s.synthesis.Answered? && traceKnown == s.tx(CreateTrace).BodyRan()
        && traceCreationFailed == s.tx(CreateTrace).Raises()
      requires rows == NEW_TURN.(trace := if s.tx(CreateTrace).Durable() then Some(TraceRunning) else None)
      modifies this
      ensures answer == Answer(SynthesisCategories(s) != [], SynthesisCategories(s), false)
      ensures status == StatusOf(SynthesisCategories(s) != [])
      ensures rows == NEW_TURN.(trace := TraceAfterSynthesis(s))
    {
      answer := Answer(s.synthesis.degraded, [], false);
      status := SessionSuccess;
      if s.synthesis.degraded {
        answer := WithDegradation(answer, SYNTHESIZER_FALLBACK);
        status := SessionDegraded;
      }
      if traceCreationFailed {
        answer := WithDegradation(answer, SYNTHESIS_TRACE_CREATE_FAILURE);
        status := SessionDegraded;
      }
      if traceKnown {
        var raised := UpdateTrace(s, FinishTrace, TraceStatusOf(status));
        if raised {
          answer := WithDegradation(answer, SYNTHESIS_TRACE_PERSIST_FAILURE);
          status := SessionDegraded;
        }
      }
    }

    /** The audit row and the knowledge projection of a research intent. */
    method PersistEvidence(s: Schedule, answer0: Answer, status0: SessionStatus)
      returns (answer: Answer, status: SessionStatus)
      requires !rows.audit && !rows.projection
      modifies this
      ensures answer == Answer(answer0.degradation || EvidenceCategories(s) != [],
                               answer0.degradations + EvidenceCategories(s),
                               answer0.auditId || (s.research && s.tx(PersistAudit).BodyRan()))
      ensures status == if EvidenceCategories(s) != [] then SessionDegraded else status0
      ensures rows == old(rows).(audit := AuditCommitted(s), projection := ProjectionCommitted(s))
    {
      answer, status := answer0, status0;
      if s.research {
        // The audit id is put on the answer before the commit.
        if s.tx(PersistAudit).BodyRan() {
          answer := answer.(auditId := true);
        }
        if s.tx(PersistAudit).Durable() {
          rows := rows.(audit := true);
        }
        if s.tx(PersistAudit).Raises() {
          answer := WithDegradation(answer, AUDIT_PERSIST_FAILURE);
          status := SessionDegraded;
        } else {
          if s.tx(ProjectEvidence).Durable() && s.projects {
            rows := rows.(projection := true);
          }
          if s.tx(ProjectEvidence).Raises() || !s.projects {
            answer := WithDegradation(answer, KNOWLEDGE_PROJECTION_FAILURE);
            status := SessionDegraded;
          }
        }
      }
    }

    /** The turn row, then the session row. */
    method FinalizeStages(s: Schedule, traceKnown: bool, answer0: Answer, status0: SessionStatus)
      returns (answer: Answer, status: SessionStatus)
      requires traceKnown == s.tx(CreateTrace).BodyRan() && rows.session.SessionPrepared? && rows.turn.TurnPrepared?
      requires rows.trace.Some? ==> traceKnown
      modifies this
      ensures var answer1 :=
        if s.tx(FinishTurn).Raises() then WithDegradation(answer0, SESSION_FINALIZE_FAILURE) else answer0;
        var status1 := if s.tx(FinishTurn).Raises() then SessionDegraded else status0;
        && answer ==
             (if s.tx(FinishSession).Raises() then WithDegradation(answer1, SESSION_FINALIZE_FAILURE) else answer1)
        && status == (if s.tx(FinishSession).Raises() then SessionDegraded else status1)
        && rows == old(rows).(
             turn := if s.tx(FinishTurn).Durable() then TurnExecuted else TurnPrepared,
             session := if s.tx(FinishSession).Durable() then status1 else SessionPrepared,
             storedAnswer := if s.tx(FinishSession).Durable() then Some(answer1) else old(rows).storedAnswer,
             trace := if old(rows).trace.Some? && LateDiagnosis(s) then Some(TraceDegraded) else old(rows).trace)
    {
      answer, status := answer0, status0;
      if s.tx(FinishTurn).Durable() {
        rows := rows.(turn := TurnExecuted);
      }
      if s.tx(FinishTurn).Raises() {
        answer := WithDegradation(answer, SESSION_FINALIZE_FAILURE);
        status := SessionDegraded;
        if traceKnown {
          var _ := UpdateTrace(s, DiagnoseTraceAfterTurn, TraceStatusOf(status));
        }
      }
      if s.tx(FinishSession).Durable() {
        rows := rows.(session := status, storedAnswer := Some(answer));
      }
      if s.tx(FinishSession).Raises() {
        answer := WithDegradation(answer, SESSION_FINALIZE_FAILURE);
        status := SessionDegraded;
        if traceKnown {
          var _ := UpdateTrace(s, DiagnoseTraceAfterSession, TraceStatusOf(status));
        }
      }
    }
  }

  // ---------------------------------------------------------------------------
  // What a schedule leads to, in closed form
  // ---------------------------------------------------------------------------

  function FailedRows(rows: Rows, s: Schedule): Rows {
    rows.(turn := if s.tx(FailTurn).Durable() then TurnFailed else rows.turn,
          session := if s.tx(FailSession).Durable() then SessionFailed else rows.session)
  }

  function StatusOf(degraded: bool): SessionStatus {
    if degraded then SessionDegraded else SessionSuccess
  }

  predicate AuditCommitted(s: Schedule) {
    s.research && s.tx(PersistAudit).Durable()
  }

  predicate ProjectionFailed(s: Schedule) {
    s.research && s.tx(PersistAudit).Committed? && (s.tx(ProjectEvidence).Raises() || !s.projects)
  }

  predicate ProjectionCommitted(s: Schedule) {
    s.research && s.tx(PersistAudit).Committed? && s.tx(ProjectEvidence).Durable() && s.projects
  }

  /** Why an answer is degraded, in the order found out. */
  function SynthesisCategories(s: Schedule): seq<Category>
    requires s.synthesis.Answered?
  {
    (if s.synthesis.degraded then [SYNTHESIZER_FALLBACK] else [])
    + (if s.tx(CreateTrace).Raises() then [SYNTHESIS_TRACE_CREATE_FAILURE] else [])
    + (if s.tx(CreateTrace).BodyRan() && s.tx(FinishTrace).Raises() then [SYNTHESIS_TRACE_PERSIST_FAILURE] else [])
  }

  function EvidenceCategories(s: Schedule): seq<Category> {
    if s.research && s.tx(PersistAudit).Raises() then [AUDIT_PERSIST_FAILURE]
    else if ProjectionFailed(s) then [KNOWLEDGE_PROJECTION_FAILURE]
    else []
  }

  function CategoriesBeforeFinalize(s: Schedule): seq<Category>
    requires s.synthesis.Answered?
  {
    SynthesisCategories(s) + EvidenceCategories(s)
  }

  function FinalizeFailure(tx: Tx): seq<Category> {
    if tx.Raises() then [SESSION_FINALIZE_FAILURE] else []
  }

  predicate DegradedBeforeFinalize(s: Schedule)
    requires s.synthesis.Answered?
  {
    CategoriesBeforeFinalize(s) != []
  }

  predicate DegradedBeforeSession(s: Schedule)
    requires s.synthesis.Answered?
  {
    DegradedBeforeFinalize(s) || s.tx(FinishTurn).Raises()
  }

  function TraceAfterSynthesis(s: Schedule): Option<TraceStatus>
    requires s.synthesis.Answered?
  {
    if !s.tx(CreateTrace).Durable() then None
    else if s.tx(FinishTrace).Durable()
    then Some(if s.synthesis.degraded || s.tx(CreateTrace).Raises() then TraceDegraded else TraceSuccess)
    else Some(TraceRunning)
  }

  /** The trace row by the time the turn row is written: the last update that lasted. */
  function TraceBeforeFinalize(s: Schedule): Option<TraceStatus>
    requires s.synthesis.Answered?
  {
    if s.tx(CreateTrace).Durable() && DegradedBeforeFinalize(s) && s.tx(DiagnoseTrace).Durable()
    then Some(TraceDegraded)
    else TraceAfterSynthesis(s)
  }

  predicate LateDiagnosis(s: Schedule) {
    || (s.tx(FinishTurn).Raises() && s.tx(DiagnoseTraceAfterTurn).Durable())
    || (s.tx(FinishSession).Raises() && s.tx(DiagnoseTraceAfterSession).Durable())
  }

  function FinalTrace(s: Schedule): Option<TraceStatus>
    requires s.synthesis.Answered?
  {
    if s.tx(CreateTrace).Durable() && LateDiagnosis(s) then Some(TraceDegraded) else TraceBeforeFinalize(s)
  }

  function AnswerAtSession(s: Schedule): Answer
    requires s.synthesis.Answered?
  {
    Answer(DegradedBeforeSession(s), CategoriesBeforeFinalize(s) + FinalizeFailure(s.tx(FinishTurn)),
           s.research && s.tx(PersistAudit).BodyRan())
  }

  /** The rows and the outcome of a whole execution. */
  function Final(s: Schedule): (Rows, Outcome) {
    if !s.hashMatches then
      (if s.tx(RefuseMismatch).Durable() then NEW_TURN.(turn := TurnMismatched, session := SessionInvalid)
        else NEW_TURN,
       if s.tx(RefuseMismatch).Raises() then PersistenceRaised else MismatchRaised)
    else if s.tx(CreateToolTraces).Raises() then (FailedRows(NEW_TURN, s), LifecycleRaised)
    else if s.tools.ToolsFail? then
      (FailedRows(if s.tools.handler.Durable() then NEW_TURN.(session := SessionFailed, turn := TurnFailed)
        else NEW_TURN, s), LifecycleRaised)
    else if s.synthesis.SynthesisFails? then
      var trace := if !s.tx(CreateTrace).Durable() then None
                   else if s.tx(FailTrace).Durable() then Some(TraceFailed) else Some(TraceRunning);
      (FailedRows(NEW_TURN.(trace := trace), s), LifecycleRaised)
    else
      var answer := AnswerAtSession(s);
      (Rows(if s.tx(FinishSession).Durable() then StatusOf(DegradedBeforeSession(s)) else SessionPrepared,
            if s.tx(FinishSession).Durable() then Some(answer) else None,
            if s.tx(FinishTurn).Durable() then TurnExecuted else TurnPrepared,
            FinalTrace(s), AuditCommitted(s), ProjectionCommitted(s)),
       Returned(if s.tx(FinishSession).Raises() then WithDegradation(answer, SESSION_FINALIZE_FAILURE) else answer,
                StatusOf(DegradedBeforeSession(s) || s.tx(FinishSession).Raises())))
  }

  // ---------------------------------------------------------------------------
  // The recorded statuses are truthful
  // ---------------------------------------------------------------------------

  /** Everything a turn does succeeds and every transaction before the session's commits cleanly. */
  predicate CleanRun(s: Schedule) {
    && s.hashMatches && s.tx(CreateToolTraces).Committed? && s.tools.ToolsSucceed?
    && s.synthesis == Answered(false)
    && s.tx(CreateTrace).Committed? && s.tx(FinishTrace).Committed?
    && (s.research ==> s.tx(PersistAudit).Committed? && s.tx(ProjectEvidence).Committed? && s.projects)
    && s.tx(FinishTurn).Committed?
  }

  /**
   * A session row reads SUCCESS exactly after a clean run whose session commit lasted; then the turn row
   * reads EXECUTED, and audit and projection are committed for research intents.
   */
  lemma SuccessIsTruthful(s: Schedule)
    ensures Final(s).0.session.SessionSuccess? <==> CleanRun(s) && s.tx(FinishSession).Durable()
    ensures var (rows, outcome) := Final(s); rows.session.SessionSuccess? ==>
      && outcome.Returned? && rows.turn.TurnExecuted?
      && rows.storedAnswer == Some(Answer(false, [], s.research))
      && (s.research ==> rows.audit && rows.projection)
  {
    if s.synthesis.Answered? {
      assert DegradedBeforeFinalize(s) <==>
        (s.synthesis.degraded || s.tx(CreateTrace).Raises()
          || (s.tx(CreateTrace).BodyRan() && s.tx(FinishTrace).Raises())
         || (s.research && s.tx(PersistAudit).Raises()) || ProjectionFailed(s));
    }
  }

  /**
   * Beside a SUCCESS session row the synthesis trace row reads SUCCESS, except in one case: the session
   * commit lasted but was reported as failed, and the diagnostic update that follows lasted too.
   */
  lemma TraceBesideSuccess(s: Schedule)
    requires Final(s).0.session.SessionSuccess?
    ensures Final(s).0.trace.Some?
    ensures Final(s).0.trace == Some(TraceSuccess) <==>
      !(s.tx(FinishSession).CommittedThenRaised? && s.tx(DiagnoseTraceAfterSession).Durable())
  {
    SuccessIsTruthful(s);
  }

  /** Without that half-failure, SUCCESS means SUCCESS in all rows. */
  lemma SuccessUnderCommitOrRollback(s: Schedule)
    requires forall site {:trigger s.tx(site)} :: !s.tx(site).CommittedThenRaised?
    ensures var (rows, outcome) := Final(s); rows.session.SessionSuccess? ==>
      && rows.turn.TurnExecuted? && rows.trace == Some(TraceSuccess)
      && (s.research ==> rows.audit && rows.projection)
      && outcome == Returned(Answer(false, [], s.research), SessionSuccess)
  {
    if Final(s).0.session.SessionSuccess? {
      SuccessIsTruthful(s);
      TraceBesideSuccess(s);
      assert !s.tx(FinishSession).CommittedThenRaised?;
    }
  }

  /** The returned answer carries a degradation exactly when the final status is DEGRADED_SUCCESS, and says why. */
  lemma DegradationIsDisclosed(s: Schedule)
    requires Final(s).1.Returned?
    ensures var Returned(answer, status) := Final(s).1;
      && (answer.degradation <==> status.SessionDegraded?)
      && (status.SessionDegraded? || status.SessionSuccess?)
      && (answer.degradation <==> answer.degradations != [])
      && answer.degradations ==
           CategoriesBeforeFinalize(s) + FinalizeFailure(s.tx(FinishTurn)) + FinalizeFailure(s.tx(FinishSession))
  {
  }

  /** The session row agrees with the returned status unless its own transaction raised. */
  lemma SessionRowMatchesReturn(s: Schedule)
    requires Final(s).1.Returned?
    ensures var (rows, outcome) := Final(s);
      (rows.session == outcome.status && rows.storedAnswer == Some(outcome.answer))
      <==> s.tx(FinishSession).Committed?
  {
    var (rows, outcome) := Final(s);
    if s.tx(FinishSession).CommittedThenRaised? {
      assert |outcome.answer.degradations| == |AnswerAtSession(s).degradations| + 1;
    }
  }

  /** A turn that raises leaves no row that claims success. */
  lemma FailureClaimsNoSuccess(s: Schedule)
    requires !Final(s).1.Returned?
    ensures var rows := Final(s).0;
      && !rows.session.SessionSuccess? && !rows.session.SessionDegraded? && !rows.turn.TurnExecuted?
      && rows.storedAnswer.None? && !rows.audit && !rows.projection
      && rows.trace != Some(TraceSuccess) && rows.trace != Some(TraceDegraded)
  {
  }

  /** A returned answer names an audit row that does not exist exactly when the audit commit was rolled back. */
  lemma AuditIdDanglesIffRolledBack(s: Schedule)
    requires Final(s).1.Returned?
    ensures Final(s).1.answer.auditId && !Final(s).0.audit <==> s.research && s.tx(PersistAudit).RolledBack?
    ensures Final(s).0.audit ==> Final(s).1.answer.auditId
  {
  }

  /**
   * A trace row overstates a degraded turn exactly when it was finished as a success and every later
   * diagnostic update that was due got lost.
   */
  lemma TraceOverstatesIff(s: Schedule)
    requires Final(s).1.Returned? && Final(s).1.status.SessionDegraded?
    ensures Final(s).0.trace == Some(TraceSuccess) <==>
      && s.synthesis == Answered(false) && s.tx(CreateTrace).Committed? && s.tx(FinishTrace).Durable()
      && (DegradedBeforeFinalize(s) ==> !s.tx(DiagnoseTrace).Durable())
      && (s.tx(FinishTurn).Raises() ==> !s.tx(DiagnoseTraceAfterTurn).Durable())
      && (s.tx(FinishSession).Raises() ==> !s.tx(DiagnoseTraceAfterSession).Durable())
  {
  }

  // ---------------------------------------------------------------------------
  // Every row, by the transactions that lasted
  // ---------------------------------------------------------------------------

  /** The tool loop failed, and its own handler's transaction lasted. */
  predicate ToolHandlerLasted(s: Schedule) {
    !s.tx(CreateToolTraces).Raises() && s.tools.ToolsFail? && s.tools.handler.Durable()
  }

  /** The tools ran and synthesis did not. */
  predicate SynthesisGaveUp(s: Schedule) {
    s.hashMatches && !s.tx(CreateToolTraces).Raises() && s.tools.ToolsSucceed? && s.synthesis.SynthesisFails?
  }

  /** How an execution ends. */
  lemma OutcomeByStage(s: Schedule)
    ensures Final(s).1.MismatchRaised? <==> !s.hashMatches && s.tx(RefuseMismatch).Committed?
    ensures Final(s).1.PersistenceRaised? <==> !s.hashMatches && !s.tx(RefuseMismatch).Committed?
    ensures Final(s).1.LifecycleRaised? <==>
      s.hashMatches && (!s.tx(CreateToolTraces).Committed? || s.tools.ToolsFail? || s.synthesis.SynthesisFails?)
  {
  }

  /** A plan that changed since it was prepared is refused in both rows, or in neither. */
  lemma MismatchIsRecordedIff(s: Schedule)
    requires !s.hashMatches
    ensures var rows := Final(s).0; if s.tx(RefuseMismatch).Durable()
      then rows.turn.TurnMismatched? && rows.session.SessionInvalid?
      else rows.turn.TurnPrepared? && rows.session.SessionPrepared?
  {
  }

  /**
   * A failing turn is recorded as failed: the turn row reads FAILED exactly when the transaction that fails it lasted
   * or the tool loop's handler had failed both rows, the session row likewise; otherwise they stay prepared.  There is
   * a synthesis trace only if synthesis gave up, and it reads FAILED exactly if that update lasted.
   */
  lemma FailureIsRecordedIff(s: Schedule)
    requires Final(s).1.LifecycleRaised?
    ensures var rows := Final(s).0;
      && rows.turn == (if s.tx(FailTurn).Durable() || ToolHandlerLasted(s) then TurnFailed else TurnPrepared)
      && rows.session ==
           (if s.tx(FailSession).Durable() || ToolHandlerLasted(s) then SessionFailed else SessionPrepared)
      && (rows.trace.Some? <==> SynthesisGaveUp(s) && s.tx(CreateTrace).Durable())
      && (rows.trace.Some? ==> rows.trace.value == if s.tx(FailTrace).Durable() then TraceFailed else TraceRunning)
  {
  }

  /** The rows of a turn that returns: each says what its own transaction wrote, if that lasted. */
  lemma ReturnIsRecordedIff(s: Schedule)
    requires Final(s).1.Returned?
    ensures var rows := Final(s).0;
      var degraded := Final(s).1.answer.degradation && !(s.tx(FinishSession).Raises() && CleanRun(s));
      && rows.turn == (if s.tx(FinishTurn).Durable() then TurnExecuted else TurnPrepared)
      && rows.session == (if !s.tx(FinishSession).Durable() then SessionPrepared
                          else if degraded then SessionDegraded else SessionSuccess)
      && (rows.storedAnswer.Some? <==> s.tx(FinishSession).Durable())
      && (rows.audit <==> s.research && s.tx(PersistAudit).Durable())
      && rows.projection == (s.research && s.tx(PersistAudit).Committed? && s.projects
                             && s.tx(ProjectEvidence).Durable())
  {
    SuccessIsTruthful(s);
  }

  /** The answer that is stored is the returned one, short of what the session's own failure adds to it. */
  lemma StoredAnswerIs(s: Schedule)
    requires Final(s).1.Returned? && s.tx(FinishSession).Durable()
    ensures var (stored, returned) := (Final(s).0.storedAnswer.value, Final(s).1.answer);
      && stored.auditId == returned.auditId == (s.research && !s.tx(PersistAudit).BodyFailed?)
      && (stored.degradation <==> stored.degradations != [])
      && returned.degradations ==
           stored.degradations + if s.tx(FinishSession).Committed? then [] else [SESSION_FINALIZE_FAILURE]
  {
  }

  /** How often a category occurs. */
  function Count(categories: seq<Category>, c: Category): nat {
    if categories == [] then 0 else (if categories[0] == c then 1 else 0) + Count(categories[1..], c)
  }

  lemma {:induction false} CountOfConcat(a: seq<Category>, b: seq<Category>, c: Category)
    ensures Count(a + b, c) == Count(a, c) + Count(b, c)
  {
    if a == [] {
      assert a + b == b;
    } else {
      assert (a + b)[1..] == a[1..] + b;
      CountOfConcat(a[1..], b, c);
    }
  }

  function Times(condition: bool): nat {
    if condition then 1 else 0
  }

  /** The category, once, under a condition. */
  function OnceIf(condition: bool, c: Category): seq<Category> {
    if condition then [c] else []
  }

  lemma CountOfOnce(condition: bool, c: Category, d: Category)
    ensures Count(OnceIf(condition, c), d) == Times(condition && c == d)
  {
  }

  function SynthesisPart(s: Schedule): seq<Category> {
    OnceIf(s.synthesis == Answered(true), SYNTHESIZER_FALLBACK)
    + OnceIf(!s.tx(CreateTrace).Committed?, SYNTHESIS_TRACE_CREATE_FAILURE)
    + OnceIf(!s.tx(CreateTrace).BodyFailed? && !s.tx(FinishTrace).Committed?, SYNTHESIS_TRACE_PERSIST_FAILURE)
  }

  function EvidencePart(s: Schedule): seq<Category> {
    OnceIf(s.research && !s.tx(PersistAudit).Committed?, AUDIT_PERSIST_FAILURE)
    + OnceIf(s.research && s.tx(PersistAudit).Committed? && !(s.tx(ProjectEvidence).Committed? && s.projects),
             KNOWLEDGE_PROJECTION_FAILURE)
  }

  function FinalizePart(s: Schedule): seq<Category> {
    OnceIf(!s.tx(FinishTurn).Committed?, SESSION_FINALIZE_FAILURE)
    + OnceIf(!s.tx(FinishSession).Committed?, SESSION_FINALIZE_FAILURE)
  }

  lemma PartsAreCategories(s: Schedule)
    requires s.synthesis.Answered?
    ensures SynthesisPart(s) == SynthesisCategories(s)
    ensures EvidencePart(s) == EvidenceCategories(s)
    ensures FinalizePart(s) == FinalizeFailure(s.tx(FinishTurn)) + FinalizeFailure(s.tx(FinishSession))
  {
  }

  lemma FourLists(a: seq<Category>, b: seq<Category>, c: seq<Category>, d: seq<Category>)
    ensures a + b + c + d == a + (b + (c + d))
  {
  }

  lemma DegradationsInParts(s: Schedule)
    requires Final(s).1.Returned?
    ensures Final(s).1.answer.degradations == SynthesisPart(s) + (EvidencePart(s) + FinalizePart(s))
  {
    DegradationIsDisclosed(s);
    PartsAreCategories(s);
    FourLists(SynthesisCategories(s), EvidenceCategories(s), FinalizeFailure(s.tx(FinishTurn)),
              FinalizeFailure(s.tx(FinishSession)));
  }

  lemma CountInParts(s: Schedule, c: Category)
    requires Final(s).1.Returned?
    ensures Count(Final(s).1.answer.degradations, c) ==
      Count(SynthesisPart(s), c) + Count(EvidencePart(s), c) + Count(FinalizePart(s), c)
  {
    DegradationsInParts(s);
    CountOfConcat(SynthesisPart(s), EvidencePart(s) + FinalizePart(s), c);
    CountOfConcat(EvidencePart(s), FinalizePart(s), c);
  }

  lemma CountInSynthesis(s: Schedule, c: Category)
    ensures Count(SynthesisPart(s), c) == match c
      case SYNTHESIZER_FALLBACK => Times(s.synthesis == Answered(true))
      case SYNTHESIS_TRACE_CREATE_FAILURE => Times(!s.tx(CreateTrace).Committed?)
      case SYNTHESIS_TRACE_PERSIST_FAILURE =>
        Times(!s.tx(CreateTrace).BodyFailed? && !s.tx(FinishTrace).Committed?)
      case _ => 0
  {
    var a := OnceIf(s.synthesis == Answered(true), SYNTHESIZER_FALLBACK);
    var b := OnceIf(!s.tx(CreateTrace).Committed?, SYNTHESIS_TRACE_CREATE_FAILURE);
    var d :=
      OnceIf(!s.tx(CreateTrace).BodyFailed? && !s.tx(FinishTrace).Committed?, SYNTHESIS_TRACE_PERSIST_FAILURE);
    CountOfConcat(a + b, d, c);
    CountOfConcat(a, b, c);
  }

  lemma CountInEvidence(s: Schedule, c: Category)
    ensures Count(EvidencePart(s), c) == match c
      case AUDIT_PERSIST_FAILURE => Times(s.research && !s.tx(PersistAudit).Committed?)
      case KNOWLEDGE_PROJECTION_FAILURE =>
        Times(s.research && s.tx(PersistAudit).Committed? && !(s.tx(ProjectEvidence).Committed? && s.projects))
      case _ => 0
  {
    CountOfConcat(OnceIf(s.research && !s.tx(PersistAudit).Committed?, AUDIT_PERSIST_FAILURE),
      OnceIf(s.research && s.tx(PersistAudit).Committed? && !(s.tx(ProjectEvidence).Committed? && s.projects),
             KNOWLEDGE_PROJECTION_FAILURE), c);
  }

  lemma CountInFinalize(s: Schedule, c: Category)
    ensures Count(FinalizePart(s), c) == if !c.SESSION_FINALIZE_FAILURE? then 0
      else Times(!s.tx(FinishTurn).Committed?) + Times(!s.tx(FinishSession).Committed?)
  {
    CountOfConcat(OnceIf(!s.tx(FinishTurn).Committed?, SESSION_FINALIZE_FAILURE),
                  OnceIf(!s.tx(FinishSession).Committed?, SESSION_FINALIZE_FAILURE), c);
  }

  /** Every degradation has its one cause, and is listed as often as the cause occurred. */
  lemma DegradationsAreExact(s: Schedule, c: Category)
    requires Final(s).1.Returned?
    ensures Count(Final(s).1.answer.degradations, c) == match c
      case SYNTHESIZER_FALLBACK => Times(s.synthesis == Answered(true))
      case SYNTHESIS_TRACE_CREATE_FAILURE => Times(!s.tx(CreateTrace).Committed?)
      case SYNTHESIS_TRACE_PERSIST_FAILURE =>
        Times(!s.tx(CreateTrace).BodyFailed? && !s.tx(FinishTrace).Committed?)
      case AUDIT_PERSIST_FAILURE => Times(s.research && !s.tx(PersistAudit).Committed?)
      case KNOWLEDGE_PROJECTION_FAILURE =>
        Times(s.research && s.tx(PersistAudit).Committed? && !(s.tx(ProjectEvidence).Committed? && s.projects))
      case SESSION_FINALIZE_FAILURE => Times(!s.tx(FinishTurn).Committed?) + Times(!s.tx(FinishSession).Committed?)
  {
    CountInParts(s, c);
    CountInSynthesis(s, c);
    CountInEvidence(s, c);
    CountInFinalize(s, c);
  }

  /** The stage a category belongs to. */
  function Stage(c: Category): nat {
    match c
    case SYNTHESIZER_FALLBACK => 0
    case SYNTHESIS_TRACE_CREATE_FAILURE => 1
    case SYNTHESIS_TRACE_PERSIST_FAILURE => 2
    case AUDIT_PERSIST_FAILURE => 3
    case KNOWLEDGE_PROJECTION_FAILURE => 4
    case SESSION_FINALIZE_FAILURE => 5
  }

  /** In the order of the stages, from `low` to `high`. */
  predicate InStages(found: seq<Category>, low: nat, high: nat) {
    && (forall i :: 0 <= i < |found| ==> low <= Stage(found[i]) <= high)
    && (forall i, j :: 0 <= i < j < |found| ==> Stage(found[i]) <= Stage(found[j]))
  }

  lemma StagesInTurn(a: seq<Category>, b: seq<Category>, low: nat, end: nat, start: nat, high: nat)
    requires InStages(a, low, end) && InStages(b, start, high) && low <= end <= start <= high
    ensures InStages(a + b, low, high)
  {
  }

  lemma OnceInStage(p: bool, c: Category)
    ensures InStages(OnceIf(p, c), Stage(c), Stage(c))
  {
  }

  lemma SynthesisInOrder(s: Schedule)
    ensures InStages(SynthesisPart(s), 0, 2)
  {
    var a := OnceIf(s.synthesis == Answered(true), SYNTHESIZER_FALLBACK);
    var b := OnceIf(!s.tx(CreateTrace).Committed?, SYNTHESIS_TRACE_CREATE_FAILURE);
    var traceLost := !s.tx(CreateTrace).BodyFailed? && !s.tx(FinishTrace).Committed?;
    OnceInStage(s.synthesis == Answered(true), SYNTHESIZER_FALLBACK);
    OnceInStage(!s.tx(CreateTrace).Committed?, SYNTHESIS_TRACE_CREATE_FAILURE);
    OnceInStage(traceLost, SYNTHESIS_TRACE_PERSIST_FAILURE);
    StagesInTurn(a, b, 0, 0, 1, 1);
    StagesInTurn(a + b, OnceIf(traceLost, SYNTHESIS_TRACE_PERSIST_FAILURE), 0, 1, 2, 2);
  }

  lemma EvidenceInOrder(s: Schedule)
    ensures InStages(EvidencePart(s), 3, 4)
  {
    var auditLost := s.research && !s.tx(PersistAudit).Committed?;
    var projectionLost :=
      s.research && s.tx(PersistAudit).Committed? && !(s.tx(ProjectEvidence).Committed? && s.projects);
    OnceInStage(auditLost, AUDIT_PERSIST_FAILURE);
    OnceInStage(projectionLost, KNOWLEDGE_PROJECTION_FAILURE);
    StagesInTurn(OnceIf(auditLost, AUDIT_PERSIST_FAILURE), OnceIf(projectionLost, KNOWLEDGE_PROJECTION_FAILURE),
                 3, 3, 4, 4);
  }

  lemma FinalizeInOrder(s: Schedule)
    ensures InStages(FinalizePart(s), 5, 5)
  {
    OnceInStage(!s.tx(FinishTurn).Committed?, SESSION_FINALIZE_FAILURE);
    OnceInStage(!s.tx(FinishSession).Committed?, SESSION_FINALIZE_FAILURE);
    StagesInTurn(OnceIf(!s.tx(FinishTurn).Committed?, SESSION_FINALIZE_FAILURE),
                 OnceIf(!s.tx(FinishSession).Committed?, SESSION_FINALIZE_FAILURE), 5, 5, 5, 5);
  }

  /** They are listed in the order of the stages. */
  lemma DegradationsAreInOrder(s: Schedule)
    requires Final(s).1.Returned?
    ensures InStages(Final(s).1.answer.degradations, 0, 5)
  {
    DegradationsInParts(s);
    SynthesisInOrder(s);
    EvidenceInOrder(s);
    FinalizeInOrder(s);
    StagesInTurn(EvidencePart(s), FinalizePart(s), 3, 4, 5, 5);
    StagesInTurn(SynthesisPart(s), EvidencePart(s) + FinalizePart(s), 0, 2, 3, 5);
  }

  /** Some diagnosis of the finished turn lasted. */
  predicate Diagnosed(s: Schedule)
    requires Final(s).1.Returned?
  {
    || (!s.tx(FinishTurn).Committed? && s.tx(DiagnoseTraceAfterTurn).Durable())
    || (!s.tx(FinishSession).Committed? && s.tx(DiagnoseTraceAfterSession).Durable())
  }

  /**
   * The synthesis trace of a turn that returns exists exactly when its creation lasted, and runs for good exactly
   * when no update of it lasted.
   */
  lemma TraceRunsForGoodIff(s: Schedule)
    requires Final(s).1.Returned?
    ensures var trace := Final(s).0.trace;
      && (trace.Some? <==> s.tx(CreateTrace).Durable())
      && trace != Some(TraceFailed)
      && (trace == Some(TraceRunning) <==>
            && s.tx(CreateTrace).Durable() && !s.tx(FinishTrace).Durable() && !s.tx(DiagnoseTrace).Durable()
            && !Diagnosed(s))
  {
  }

  // ---------------------------------------------------------------------------
  // Schedules that reach the failing cases
  // ---------------------------------------------------------------------------

  /** A turn in which everything goes well but one transaction. */
  function AllButOne(research: bool, odd: Site, tx: Tx): Schedule {
    Schedule(true, research, ToolsSucceed, Answered(false), true, (site: Site) => if site == odd then tx else Committed)
  }

  /** A session commit that lasts but is reported as failed: SUCCESS in its row, DEGRADED_SUCCESS elsewhere. */
  lemma SuccessCanStandBesideDegradation(research: bool)
    ensures var (rows, outcome) := Final(AllButOne(research, FinishSession, CommittedThenRaised));
      && rows.session.SessionSuccess? && rows.trace == Some(TraceDegraded)
      && outcome.Returned? && outcome.status.SessionDegraded? && outcome.answer.degradation
  {
    var s := AllButOne(research, FinishSession, CommittedThenRaised);
    assert s.tx(FinishSession) == CommittedThenRaised && s.tx(DiagnoseTraceAfterSession) == Committed;
  }

  /** An audit commit that is lost: the answer names the row all the same. */
  lemma AuditIdCanDangle()
    ensures var (rows, outcome) := Final(AllButOne(true, PersistAudit, RolledBack));
      outcome.Returned? && outcome.answer.auditId && !rows.audit
  {
    AuditIdDanglesIffRolledBack(AllButOne(true, PersistAudit, RolledBack));
  }
}
