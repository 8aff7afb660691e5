/** Synthesis, validator and deterministic answers put together: what a research turn can return, and when it fails. */
module FailClosed {
  import opened Common
  import opened ResearchTemplates
  import opened Groundedness
  import opened DegradedAnswer
  import opened ActionDisclosure
  import S = Synthesizer

  /** The model and the checks around it; `reasons` are the fallback reasons of a cause. */
  datatype Model = Model(
    chat: nat -> S.Chat,
    parse: string -> Option<Answer>,
    contextAllows: Answer -> bool,
    policy: Answer -> S.Verdict,
    reasons: S.Category -> seq<string>,
    messages: GroundednessResult -> seq<string>)

  datatype Turn = Turn(
    reading: Reading, tables: Tables, model: Model, plan: Plan, outputs: seq<Output>, inputsUsable: bool,
    missingAnswerDue: bool)

  function Ground(t: Turn, a: Answer): S.Verdict {
    var v := Validated(t.reading, a, t.plan, t.outputs);
    S.Verdict(v.status.Pass?, t.model.messages(v))
  }

  function ToolAnswer(t: Turn, why: S.Category): Option<Answer> {
    BuildDeterministicToolAnswer(t.reading.wording, t.tables, t.plan, t.outputs, t.model.reasons(why))
  }

  function TaskOf(t: Turn): S.Task<Answer> {
    S.Task(
      t.tables.isResearch(t.plan.intent), t.plan.steps != [], t.inputsUsable, t.missingAnswerDue,
      BuildDeterministicResearchAnswer(t.reading.wording, t.plan, t.outputs, []),
      (why: S.Category) => ToolAnswer(t, why),
      t.model.chat, t.model.parse, t.model.contextAllows,
      (a: Answer) => Ground(t, a),
      t.model.policy)
  }

  function OutcomeOf(t: Turn): S.Outcome<Answer> {
    S.OutcomeOf(TaskOf(t), S.PathOf(TaskOf(t)))
  }

  /** Whatever the model replies, an answer returned to a research intent is grounded and within policy. */
  lemma ResearchAnswersAreGrounded(t: Turn)
    requires t.tables.isResearch(t.plan.intent)
    ensures OutcomeOf(t).Returned? ==>
      var a := OutcomeOf(t).answer.content;
      IsGrounded(t.reading, t.plan, t.outputs, a) && t.model.policy(a).passed
  {
    if OutcomeOf(t).Returned? {
      S.ResearchAnswersPassValidation(TaskOf(t));
      PassesIffGrounded(t.reading, t.plan, t.outputs, OutcomeOf(t).answer.content);
    }
  }

  /** The fallback of a research turn, when the turn comes to one. */
  function FallbackAnswer(t: Turn, why: S.Category): Answer {
    ResearchFallback(t.reading.wording, t.plan, t.outputs, t.model.reasons(why))
  }

  /** What it says of its cause and of tool warnings. */
  function ReasonsShown(t: Turn, why: S.Category): seq<string> {
    WarnedReasons(t.plan, t.outputs, t.model.reasons(why))
  }

  /**
   * A research turn that falls back fails exactly when the plan is not read-only, a step left no evidence, the
   * fallback has an unsupported number or a policy violation, or a corporate action is reported that nothing the
   * fallback is built from names.
   */
  lemma FallbackFailsIff(t: Turn)
    requires t.tables.isResearch(t.plan.intent) && KeyedBySteps(t.plan, t.outputs)
    requires S.PathOf(TaskOf(t)).Fallback?
    ensures var a := FallbackAnswer(t, S.PathOf(TaskOf(t)).why);
      OutcomeOf(t).SynthesisFailed? <==>
        || !IsReadOnlyPlan(t.tables, t.plan) || !HasEvidence(t.plan, t.outputs)
        || t.reading.unsupportedNumbers(a, t.outputs) != []
        || (ReportsOverlap(t.outputs)
            && !ActionIsNamed(t.reading, t.plan, t.outputs, ReasonsShown(t, S.PathOf(TaskOf(t)).why),
                              FirstSummary(t.plan, t.outputs)))
        || !t.model.policy(a).passed
  {
    var why := S.PathOf(TaskOf(t)).why;
    S.FailsIffFallbackUnusable(TaskOf(t));
    if IsReadOnlyPlan(t.tables, t.plan) && HasEvidence(t.plan, t.outputs) {
      var a := FallbackAnswer(t, why);
      assert TaskOf(t).toolAnswer(why) == Some(a);
      ResearchFallbackPassesIff(t.reading, t.plan, t.outputs, t.model.reasons(why));
    }
  }

  lemma NoCallIffAccepted(task: S.Task<Answer>)
    requires task.research && task.hasSteps && task.inputsUsable && task.missingAnswerDue
    ensures S.CallsOf(task) == 0 <==> S.Accepts(task, task.researchAnswer)
    ensures S.Accepts(task, task.researchAnswer) ==> S.PathOf(task) == S.Accepted(task.researchAnswer)
  {
  }

  /**
   * A research turn over missing data is answered without the model exactly when its deterministic answer
   * stands up: its numbers are supported, it is within policy, and what it is built from names any corporate action.
   */
  lemma MissingDataNeedsNoModel(t: Turn)
    requires t.tables.isResearch(t.plan.intent) && KeyedBySteps(t.plan, t.outputs)
    requires t.plan.steps != [] && t.inputsUsable && t.missingAnswerDue
    ensures var a := BuildDeterministicResearchAnswer(t.reading.wording, t.plan, t.outputs, []);
      var standsUp :=
        && t.reading.unsupportedNumbers(a, t.outputs) == []
        && (ReportsOverlap(t.outputs) ==> ActionIsNamed(t.reading, t.plan, t.outputs, [], []))
        && t.model.policy(a).passed;
      && (S.CallsOf(TaskOf(t)) == 0 <==> standsUp)
      && (standsUp ==> OutcomeOf(t).Returned? && OutcomeOf(t).answer.content == a)
  {
    NoCallIffAccepted(TaskOf(t));
    DeterministicAnswerPassesIff(t.reading, t.plan, t.outputs, []);
  }
}
