/** `AnswerSynthesizer` of `synthesizer.py`: validation, one repair, and a deterministic fallback. */
module Synthesizer {
  import opened Common

  datatype Verdict = Verdict(passed: bool, messages: seq<string>)

  datatype Category =
    | INPUT_VALIDATION | GATEWAY_FAILURE | STRUCTURED_OUTPUT_INVALID
    | CONTEXT_POLICY_REJECTED | GROUNDEDNESS_OR_POLICY_REJECTED

  /** The research metadata that synthesis writes. */
  datatype Metadata = Metadata(
    groundedness: Option<Verdict>, policy: Option<Verdict>, fallbackUsed: Option<bool>, degradation: Option<Category>)

  const NO_METADATA := Metadata(None, None, None, None)

  /** An answer: its content, which the validators read, and its metadata, which they do not. */
  datatype Answer<+C> = Answer(content: C, metadata: Metadata)

  /** What a model call does: `ChatFailed` is a gateway or runtime error, `ChatEscaped` any other exception. */
  datatype Chat = ChatText(text: string) | ChatFailed | ChatEscaped

  /** The plan, its tool outputs and the model, as far as synthesis looks at them. */
  datatype Task<!C> = Task(
    research: bool, hasSteps: bool,
    inputsUsable: bool,                      // `validate_inputs(...).can_synthesize`
    missingAnswerDue: bool,                  // `_requires_deterministic_missing_answer`
    researchAnswer: C,                       // `build_deterministic_research_answer`
    toolAnswer: Category -> Option<C>,       // `build_deterministic_tool_answer`
    chat: nat -> Chat,
    parse: string -> Option<C>,
    contextAllows: C -> bool,                // `_validate_context_answer`
    ground: C -> Verdict,
    policy: C -> Verdict)

  datatype Outcome<+C> = Returned(answer: Answer<C>) | SynthesisFailed | EscapedException

  predicate Accepts<C>(t: Task<C>, content: C) {
    t.ground(content).passed && t.policy(content).passed
  }

  /** The content of a model reply, when it parses and respects the context contract. */
  function Usable<C>(t: Task<C>, chat: Chat): Option<C> {
    if chat.ChatText? && t.parse(chat.text).Some? && t.contextAllows(t.parse(chat.text).value)
    then t.parse(chat.text)
    else None
  }

  /** Which way a task goes: an accepted content, an unvalidated one, a fallback, or an escaping exception. */
  datatype Path<+C> = Accepted(content: C) | Unvalidated(content: C) | Fallback(why: Category) | Escapes

  function PathOf<C>(t: Task<C>): Path<C> {
    if t.research && t.hasSteps && !t.inputsUsable then Fallback(INPUT_VALIDATION)
    else if t.research && t.hasSteps && t.missingAnswerDue && Accepts(t, t.researchAnswer)
    then Accepted(t.researchAnswer)
    else
      match t.chat(0)
      case ChatEscaped => Escapes
      case ChatFailed => Fallback(GATEWAY_FAILURE)
      case ChatText(text) =>
        match t.parse(text)
        case None => Fallback(STRUCTURED_OUTPUT_INVALID)
        case Some(content) =>
          if !t.contextAllows(content) then Fallback(CONTEXT_POLICY_REJECTED)
          else if !t.research then Unvalidated(content)
          else if Accepts(t, content) then Accepted(content)
          else if t.chat(1).ChatEscaped? then Escapes
          else match Usable(t, t.chat(1))
            case Some(repaired) =>
              if Accepts(t, repaired) then Accepted(repaired) else Fallback(GROUNDEDNESS_OR_POLICY_REJECTED)
            case None => Fallback(GROUNDEDNESS_OR_POLICY_REJECTED)
  }

  function Stamped<C>(t: Task<C>, content: C, fallbackUsed: bool, degradation: Option<Category>): Answer<C> {
    Answer(content, Metadata(Some(t.ground(content)), Some(t.policy(content)), Some(fallbackUsed), degradation))
  }

  function OutcomeOf<C>(t: Task<C>, path: Path<C>): Outcome<C> {
    match path
    case Escapes => EscapedException
    case Unvalidated(content) => Returned(Answer(content, NO_METADATA))
    case Accepted(content) => Returned(Stamped(t, content, false, None))
    case Fallback(why) =>
      match t.toolAnswer(why)
      case None => SynthesisFailed
      case Some(content) =>
        if Accepts(t, content) then Returned(Stamped(t, content, true, Some(why))) else SynthesisFailed
  }

  class AnswerSynthesizer<C> {
    var lastGroundedness: Option<Verdict>
    var lastPolicy: Option<Verdict>
    var lastFallbackUsed: bool
    var lastDegradation: Option<Category>
    /** Model calls made by the latest synthesis. */
    var modelCalls: nat

    constructor ()
    {
      lastGroundedness, lastPolicy, lastFallbackUsed, lastDegradation, modelCalls := None, None, false, None, 0;
    }

    /** The instance fields describe exactly the answer just returned. */
    ghost predicate Describes(answer: Answer<C>)
      reads this
    {
      && lastGroundedness == answer.metadata.groundedness && lastPolicy == answer.metadata.policy
      && lastFallbackUsed == (answer.metadata.fallbackUsed == Some(true))
      && lastDegradation == answer.metadata.degradation
    }

    /** `_synthesize_answer`. */
    method Synthesize(t: Task<C>) returns (outcome: Outcome<C>)
      modifies this
      ensures outcome == OutcomeOf(t, PathOf(t))
      ensures outcome.Returned? ==> Describes(outcome.answer)
      ensures !outcome.Returned? ==>
        lastGroundedness.None? && lastPolicy.None? && !lastFallbackUsed && lastDegradation.None?
      ensures modelCalls == CallsOf(t)
    {
      lastGroundedness, lastPolicy, lastFallbackUsed, lastDegradation, modelCalls := None, None, false, None, 0;
      if t.research && t.hasSteps {
        if !t.inputsUsable {
          outcome := DeterministicFallback(t, INPUT_VALIDATION);
          return;
        }
        if t.missingAnswerDue {
          var groundedness, policy := t.ground(t.researchAnswer), t.policy(t.researchAnswer);
          if groundedness.passed && policy.passed {
            var answer := RecordValidation(Answer(t.researchAnswer, NO_METADATA), groundedness, policy, false);
            return Returned(answer);
          }
        }
      }
      var reply := t.chat(modelCalls);
      modelCalls := modelCalls + 1;
      match reply {
        case ChatEscaped => return EscapedException;
        case ChatFailed => outcome := DeterministicFallback(t, GATEWAY_FAILURE); return;
        case ChatText(_) =>
      }
      var parsed := t.parse(reply.text);
      if parsed.None? {
        outcome := DeterministicFallback(t, STRUCTURED_OUTPUT_INVALID);
        return;
      }
      if !t.contextAllows(parsed.value) {
        outcome := DeterministicFallback(t, CONTEXT_POLICY_REJECTED);
        return;
      }
      if !t.research {
        return Returned(Answer(parsed.value, NO_METADATA));
      }
      var groundedness, policy := t.ground(parsed.value), t.policy(parsed.value);
      if groundedness.passed && policy.passed {
        var answer := RecordValidation(Answer(parsed.value, NO_METADATA), groundedness, policy, false);
        return Returned(answer);
      }
      outcome := Repair(t);
    }

    /** The one repair call. */
    method Repair(t: Task<C>) returns (outcome: Outcome<C>)
      requires modelCalls == 1 && lastGroundedness.None? && lastPolicy.None? && !lastFallbackUsed
        && lastDegradation.None?
      modifies this
      ensures modelCalls == 2
      ensures outcome == OutcomeOf(t,
        if t.chat(1).ChatEscaped? then Escapes
        else match Usable(t, t.chat(1))
          case Some(repaired) =>
            if Accepts(t, repaired) then Accepted(repaired) else Fallback(GROUNDEDNESS_OR_POLICY_REJECTED)
          case None => Fallback(GROUNDEDNESS_OR_POLICY_REJECTED))
      ensures outcome.Returned? ==> Describes(outcome.answer)
      ensures !outcome.Returned? ==>
        lastGroundedness.None? && lastPolicy.None? && !lastFallbackUsed && lastDegradation.None?
    {
      var reply := t.chat(modelCalls);
      modelCalls := modelCalls + 1;
      if reply.ChatEscaped? {
        return EscapedException;
      }
      if reply.ChatText? {
        var repaired := t.parse(reply.text);
        if repaired.Some? && t.contextAllows(repaired.value) {
          var groundedness, policy := t.ground(repaired.value), t.policy(repaired.value);
          if groundedness.passed && policy.passed {
            var answer := RecordValidation(Answer(repaired.value, NO_METADATA), groundedness, policy, false);
            return Returned(answer);
          }
        }
      }
      outcome := DeterministicFallback(t, GROUNDEDNESS_OR_POLICY_REJECTED);
    }

    /** `_deterministic_fallback`. */
    method DeterministicFallback(t: Task<C>, why: Category) returns (outcome: Outcome<C>)
      requires lastGroundedness.None? && lastPolicy.None? && !lastFallbackUsed && lastDegradation.None?
      modifies this
      ensures outcome == OutcomeOf(t, Fallback(why)) && modelCalls == old(modelCalls)
      ensures outcome.Returned? ==> Describes(outcome.answer)
      ensures !outcome.Returned? ==>
        lastGroundedness.None? && lastPolicy.None? && !lastFallbackUsed && lastDegradation.None?
    {
      var content := t.toolAnswer(why);
      if content.None? {
        return SynthesisFailed;
      }
      var groundedness, policy := t.ground(content.value), t.policy(content.value);
      if !groundedness.passed || !policy.passed {
        return SynthesisFailed;
      }
      lastDegradation := Some(why);
      // The tool answer carries its degradation from the start.
      var answer :=
        RecordValidation(Answer(content.value, NO_METADATA.(degradation := Some(why))), groundedness, policy, true);
      outcome := Returned(answer);
    }

    /** `_record_validation`. */
    method RecordValidation(answer: Answer<C>, groundedness: Verdict, policy: Verdict, fallbackUsed: bool)
      returns (r: Answer<C>)
      modifies this
      ensures r == answer.(metadata :=
        Metadata(Some(groundedness), Some(policy), Some(fallbackUsed), answer.metadata.degradation))
      ensures lastGroundedness == Some(groundedness) && lastPolicy == Some(policy) && lastFallbackUsed == fallbackUsed
      ensures lastDegradation == old(lastDegradation) && modelCalls == old(modelCalls)
    {
      lastGroundedness, lastPolicy, lastFallbackUsed := Some(groundedness), Some(policy), fallbackUsed;
      r := answer.(metadata :=
        answer.metadata.(groundedness := Some(groundedness), policy := Some(policy),
                         fallbackUsed := Some(fallbackUsed)));
    }
  }

  /** How many model calls a task takes. */
  function CallsOf<C>(t: Task<C>): nat {
    if t.research && t.hasSteps && (!t.inputsUsable || (t.missingAnswerDue && Accepts(t, t.researchAnswer))) then 0
    else match Usable(t, t.chat(0))
      case Some(content) => if t.research && !Accepts(t, content) then 2 else 1
      case None => 1
  }

  /** The contents a task can offer, in the order they are tried. */
  ghost predicate IsOffered<C>(t: Task<C>, content: C) {
    || (t.missingAnswerDue && content == t.researchAnswer)
    || Usable(t, t.chat(0)) == Some(content)
    || Usable(t, t.chat(1)) == Some(content)
    || exists why :: t.toolAnswer(why) == Some(content)
  }

  /**
   * Fail closed: an answer to a research intent carries a content on which groundedness and policy both
   * passed, with those very verdicts in its metadata, after at most two model calls; its degradation
   * says whether the fallback was used.
   */
  lemma ResearchAnswersPassValidation<C>(t: Task<C>)
    requires t.research && OutcomeOf(t, PathOf(t)).Returned?
    ensures var answer := OutcomeOf(t, PathOf(t)).answer;
      && Accepts(t, answer.content) && IsOffered(t, answer.content)
      && answer.metadata.groundedness == Some(t.ground(answer.content))
      && answer.metadata.policy == Some(t.policy(answer.content))
      && answer.metadata.fallbackUsed.Some?
      && (answer.metadata.fallbackUsed.value <==> answer.metadata.degradation.Some?)
    ensures CallsOf(t) <= 2
  {
  }

  /** Any degraded answer, to any intent, was validated; and only fallbacks are degraded. */
  lemma DegradedAnswersPassValidation<C>(t: Task<C>)
    requires OutcomeOf(t, PathOf(t)).Returned?
    ensures var answer := OutcomeOf(t, PathOf(t)).answer;
      && (answer.metadata.degradation.Some? <==> PathOf(t).Fallback?)
      && (answer.metadata.degradation.Some? ==>
           Accepts(t, answer.content) && t.toolAnswer(answer.metadata.degradation.value) == Some(answer.content))
      && (answer.metadata == NO_METADATA ==> !t.research)
  {
  }

  /**
   * Without an escaping exception a task fails exactly when its path falls back and the fallback for
   * that cause is missing or does not validate; every other path ends in an answer.
   */
  lemma FailsIffFallbackUnusable<C>(t: Task<C>)
    ensures OutcomeOf(t, PathOf(t)).SynthesisFailed? <==>
      PathOf(t).Fallback? && (t.toolAnswer(PathOf(t).why).None? || !Accepts(t, t.toolAnswer(PathOf(t).why).value))
    ensures OutcomeOf(t, PathOf(t)).EscapedException? <==> CallsOf(t) >= 1 && t.chat(CallsOf(t) - 1).ChatEscaped?
  {
  }

  /** Why a task that comes to its fallback does. */
  function FallbackCause<C>(t: Task<C>): Category {
    if t.research && t.hasSteps && !t.inputsUsable then INPUT_VALIDATION
    else
      match t.chat(0)
      case ChatText(text) =>
        (match t.parse(text)
         case None => STRUCTURED_OUTPUT_INVALID
         case Some(content) =>
           if t.contextAllows(content) then GROUNDEDNESS_OR_POLICY_REJECTED else CONTEXT_POLICY_REJECTED)
      case _ => GATEWAY_FAILURE
  }

  function AsList<C>(content: Option<C>): seq<C> {
    match content case Some(c) => [c] case None => []
  }

  /** What a research task has to offer, best first: its own answer over missing data, the model's, the fallback. */
  function Offers<C>(t: Task<C>): seq<C> {
    var inputsRefused := t.hasSteps && !t.inputsUsable;
    (if t.hasSteps && t.inputsUsable && t.missingAnswerDue then [t.researchAnswer] else [])
    + (if inputsRefused then []
       else match Usable(t, t.chat(0)) case None => [] case Some(content) => [content] + AsList(Usable(t, t.chat(1))))
    + AsList(t.toolAnswer(FallbackCause(t)))
  }

  function FirstAccepted<C>(t: Task<C>, offers: seq<C>): Option<C> {
    if offers == [] then None
    else if Accepts(t, offers[0]) then Some(offers[0])
    else FirstAccepted(t, offers[1..])
  }

  lemma {:induction false} FirstAcceptedOfConcat<C>(t: Task<C>, a: seq<C>, b: seq<C>)
    ensures FirstAccepted(t, a + b) == if FirstAccepted(t, a).Some? then FirstAccepted(t, a) else FirstAccepted(t, b)
  {
    if a == [] {
      assert a + b == b;
    } else {
      FirstAcceptedOfConcat(t, a[1..], b);
      assert (a + b)[1..] == a[1..] + b;
    }
  }

  lemma FirstAcceptedOfList<C>(t: Task<C>, content: Option<C>)
    ensures FirstAccepted(t, AsList(content)) == if content.Some? && Accepts(t, content.value) then content else None
  {
  }

  /**
   * A research task whose model calls let nothing escape returns the first of its offers that validates, whatever
   * road leads there, and fails when none does.
   */
  lemma ReturnsFirstAccepted<C>(t: Task<C>)
    requires t.research && !t.chat(0).ChatEscaped? && !t.chat(1).ChatEscaped?
    ensures match FirstAccepted(t, Offers(t))
      case None => OutcomeOf(t, PathOf(t)).SynthesisFailed?
      case Some(content) => OutcomeOf(t, PathOf(t)).Returned? && OutcomeOf(t, PathOf(t)).answer.content == content
  {
    var own := if t.hasSteps && t.inputsUsable && t.missingAnswerDue then [t.researchAnswer] else [];
    var second := AsList(Usable(t, t.chat(1)));
    var model := if t.hasSteps && !t.inputsUsable then []
                 else match Usable(t, t.chat(0)) case None => [] case Some(content) => [content] + second;
    var tool := AsList(t.toolAnswer(FallbackCause(t)));
    FirstAcceptedOfConcat(t, own + model, tool);
    FirstAcceptedOfConcat(t, own, model);
    FirstAcceptedOfList(t, Some(t.researchAnswer));
    FirstAcceptedOfList(t, Usable(t, t.chat(1)));
    FirstAcceptedOfList(t, t.toolAnswer(FallbackCause(t)));
    match Usable(t, t.chat(0)) {
      case None =>
      case Some(content) => assert ([content] + second)[1..] == second;
    }
  }

  /**
   * A task of any other intent makes one model call.  A reply that parses and respects the context contract is
   * returned as it is, neither validated nor stamped; otherwise the fallback of the cause is, if it validates.
   */
  lemma PlainTaskReturnsReply<C>(t: Task<C>)
    requires !t.research
    ensures CallsOf(t) == 1
    ensures
      var outcome := OutcomeOf(t, PathOf(t));
      match t.chat(0)
      case ChatEscaped => outcome == EscapedException
      case ChatFailed => EndsInFallback(t, GATEWAY_FAILURE, outcome)
      case ChatText(text) =>
        match t.parse(text)
        case None => EndsInFallback(t, STRUCTURED_OUTPUT_INVALID, outcome)
        case Some(content) =>
          if t.contextAllows(content) then outcome == Returned(Answer(content, Metadata(None, None, None, None)))
          else EndsInFallback(t, CONTEXT_POLICY_REJECTED, outcome)
  {
  }

  /** The fallback of a cause, stamped with its verdicts and its cause, when there is one that validates. */
  predicate EndsInFallback<C(==)>(t: Task<C>, why: Category, outcome: Outcome<C>) {
    match t.toolAnswer(why)
    case None => outcome.SynthesisFailed?
    case Some(content) =>
      if !(t.ground(content).passed && t.policy(content).passed) then outcome.SynthesisFailed?
      else outcome == Returned(Answer(content, Metadata(Some(t.ground(content)), Some(t.policy(content)), Some(true),
                                                        Some(why))))
  }

  /** A degraded answer names the cause that the task's inputs and replies give. */
  lemma DegradationNamesCause<C>(t: Task<C>)
    requires PathOf(t).Fallback?
    ensures PathOf(t).why == FallbackCause(t)
    ensures EndsInFallback(t, FallbackCause(t), OutcomeOf(t, PathOf(t)))
  {
  }

  /** When a research task asks the model, and how often. */
  lemma ModelIsAskedIff<C>(t: Task<C>)
    requires t.research
    ensures
      var ownPasses := t.ground(t.researchAnswer).passed && t.policy(t.researchAnswer).passed;
      CallsOf(t) == 0 <==> t.hasSteps && (!t.inputsUsable || (t.missingAnswerDue && ownPasses))
    ensures CallsOf(t) > 0 ==>
      match t.chat(0)
      case ChatText(text) =>
        (match t.parse(text)
         case None => CallsOf(t) == 1
         case Some(content) =>
           CallsOf(t) == 2 <==>
             t.contextAllows(content) && !(t.ground(content).passed && t.policy(content).passed))
      case _ => CallsOf(t) == 1
    ensures CallsOf(t) <= 2
  {
  }
}
