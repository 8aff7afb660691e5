/** Deterministic fallback answers, `degraded_answer.py`. */
module DegradedAnswer {
  import opened Common
  import opened ResearchTemplates
  import opened Groundedness

  const PUBLIC_WARNING: string := "AI synthesis unavailable; " + "showing deterministic result."
  const FALLBACK_LIMITATION: string := "Deterministic fallback is " + "limited to available tool evidence."
  const TOOL_WARNING: string := "Tool output " + "reported a caveat."

  /** The intent and permission tables, and the summary of plain data. */
  datatype Tables = Tables(
    isResearch: string -> bool,
    readsOnly: string -> bool,               // the tool is registered with a READ permission
    dataSummary: (Plan, seq<Output>) -> string)

  function OutputOf(outputs: seq<Output>, s: Step): Payload {
    match Find(outputs, s.stepId)
    case None => map[]
    case Some(value) => if value.Dict? then value.fields else map[]
  }

  function StringsIn(items: seq<Value>): (r: seq<string>)
    ensures forall x :: x in r ==> x != "" && Str(x) in items
  {
    if items == [] then []
    else (if items[0].Str? && items[0].s != "" then [items[0].s] else []) + StringsIn(items[1..])
  }

  function SummaryOf(fields: Payload): seq<string> {
    if "summary" in fields && fields["summary"].Str? && fields["summary"].s != "" then [fields["summary"].s] else []
  }

  function WarningsOf(fields: Payload): seq<string> {
    if "warnings" in fields && fields["warnings"].List? then StringsIn(fields["warnings"].items) else []
  }

  /** The artifacts named under `data`; an output without `data` names none here. */
  function ArtifactsOf(fields: Payload): seq<string> {
    if "data" in fields && fields["data"].Dict? && "artifact_refs" in fields["data"].fields
       && fields["data"].fields["artifact_refs"].List?
    then StringsIn(fields["data"].fields["artifact_refs"].items) else []
  }

  /** Collected over the steps, duplicates included. */
  function Gathered(steps: seq<Step>, outputs: seq<Output>, from: Payload -> seq<string>): (r: seq<string>)
    ensures forall x :: x in r <==> exists s :: s in steps && x in from(OutputOf(outputs, s))
  {
    if steps == [] then []
    else
      assert steps == steps[..|steps| - 1] + [steps[|steps| - 1]];
      Gathered(steps[..|steps| - 1], outputs, from) + from(OutputOf(outputs, steps[|steps| - 1]))
  }

  datatype Details = Details(summaries: seq<string>, warnings: seq<string>, sourceRefs: seq<string>)

  function DetailsOf(steps: seq<Step>, outputs: seq<Output>): Details {
    Details(Dedupe(Gathered(steps, outputs, SummaryOf)), Dedupe(Gathered(steps, outputs, WarningsOf)),
            Dedupe(StepRefs(steps) + Gathered(steps, outputs, ArtifactsOf)))
  }

  method ToolResultDetails(plan: Plan, outputs: seq<Output>) returns (details: Details)
    ensures details == DetailsOf(plan.steps, outputs)
  {
    var summaries: seq<string> := [];
    var warnings: seq<string> := [];
    var artifacts: seq<string> := [];
    for i := 0 to |plan.steps|
      invariant summaries == Gathered(plan.steps[..i], outputs, SummaryOf)
      invariant warnings == Gathered(plan.steps[..i], outputs, WarningsOf)
      invariant artifacts == Gathered(plan.steps[..i], outputs, ArtifactsOf)
    {
      assert plan.steps[..i + 1][..i] == plan.steps[..i];
      var output := Find(outputs, plan.steps[i].stepId);
      if output.None? || !output.value.Dict? {
        continue;
      }
      var fields := output.value.fields;
      if "summary" in fields && fields["summary"].Str? && fields["summary"].s != "" {
        summaries := summaries + [fields["summary"].s];
      }
      if "warnings" in fields && fields["warnings"].List? {
        warnings := warnings + StringsIn(fields["warnings"].items);
      }
      if "data" in fields && fields["data"].Dict? {
        var data := fields["data"].fields;
        if "artifact_refs" in data && data["artifact_refs"].List? {
          artifacts := artifacts + StringsIn(data["artifact_refs"].items);
        }
      }
    }
    assert plan.steps[..|plan.steps|] == plan.steps;
    details := Details(Dedupe(summaries), Dedupe(warnings), Dedupe(StepRefs(plan.steps) + artifacts));
  }

  function FallbackReasons(reasons: seq<string>, warnings: seq<string>): string {
    Join(" ", Dedupe([PUBLIC_WARNING] + ((if reasons == [] then [] else [FALLBACK_LIMITATION])
      + (if warnings == [] then [] else [TOOL_WARNING]))))
  }

  predicate IsReadOnlyPlan(t: Tables, plan: Plan) {
    && plan.steps != [] && !plan.refused && plan.intent != "unsupported_or_unsafe"
    && forall i | 0 <= i < |plan.steps| :: t.readsOnly(plan.steps[i].toolName)
  }

  /** Every step left a non-empty dictionary. */
  predicate HasEvidence(plan: Plan, outputs: seq<Output>) {
    outputs != [] && forall i | 0 <= i < |plan.steps| :: OutputOf(outputs, plan.steps[i]) != map[]
  }

  function ResearchFallback(w: Wording, plan: Plan, outputs: seq<Output>, reasons: seq<string>): Answer {
    var d := DetailsOf(plan.steps, outputs);
    var answer := BuildDeterministicResearchAnswer(w, plan, outputs, [FallbackReasons(reasons, d.warnings)]);
    if d.summaries == [] then answer
    else answer.(basis := answer.basis + ("; " + Headed("Tool result", d.summaries[0])),
                 groundedSourceRefs := Dedupe(answer.groundedSourceRefs + d.sourceRefs))
  }

  function PlainFallback(t: Tables, plan: Plan, outputs: seq<Output>, reasons: seq<string>): Answer {
    var d := DetailsOf(plan.steps, outputs);
    Answer(if d.summaries == [] then t.dataSummary(plan, outputs) else d.summaries[0],
           Headed("Deterministic tools", Join(", ", ToolNames(plan.steps))),
           FallbackReasons(reasons, d.warnings), [], d.sourceRefs, [])
  }

  function BuildDeterministicToolAnswer(w: Wording, t: Tables, plan: Plan, outputs: seq<Output>,
                                        reasons: seq<string>): Option<Answer> {
    if !IsReadOnlyPlan(t, plan) || !HasEvidence(plan, outputs) then None
    else if t.isResearch(plan.intent) then Some(ResearchFallback(w, plan, outputs, reasons))
    else Some(PlainFallback(t, plan, outputs, reasons))
  }

  // ---------------------------------------------------------------------------
  // When a fallback answer passes the validator
  // ---------------------------------------------------------------------------

  lemma {:induction false} StringIsShown(w: Wording, items: seq<Value>, x: string)
    requires Str(x) in items && x != ""
    ensures x in Shown(w, items)
  {
    assert Truthy(Str(x)) && Show(w, Str(x)) == x;
  }

  /** Every reference the details name is one the validator knows. */
  lemma DetailRefsAreValid(w: Wording, plan: Plan, outputs: seq<Output>)
    ensures OnlyValidRefs(w, plan, outputs, DetailsOf(plan.steps, outputs).sourceRefs)
  {
    StepRefsAreValid(w, plan, outputs);
    forall x | x in Gathered(plan.steps, outputs, ArtifactsOf)
      ensures x in AllOutputRefs(w, outputs)
    {
      var s :| s in plan.steps && x in ArtifactsOf(OutputOf(outputs, s));
      var data := OutputOf(outputs, s)["data"];
      assert PayloadOf(outputs, s.stepId) == Some(data.fields);
      StringIsShown(w, data.fields["artifact_refs"].items, x);
      ArtifactIsValid(w, plan, outputs, s, x);
    }
  }

  lemma ResearchFallbackCloses(w: Wording, plan: Plan, outputs: seq<Output>, reasons: seq<string>)
    ensures ClosesVocabulary(w, plan, outputs, ResearchFallback(w, plan, outputs, reasons))
  {
    var d := DetailsOf(plan.steps, outputs);
    var built := BuildDeterministicResearchAnswer(w, plan, outputs, [FallbackReasons(reasons, d.warnings)]);
    BuiltAnswerCloses(w, plan, outputs, [FallbackReasons(reasons, d.warnings)]);
    if d.summaries != [] {
      var a := ResearchFallback(w, plan, outputs, reasons);
      DetailRefsAreValid(w, plan, outputs);
      assert a.basis == "" + built.basis + ("; " + Headed("Tool result", d.summaries[0]));
      ContainsMiddle("", built.basis, "; " + Headed("Tool result", d.summaries[0]));
      if plan.steps != [] {
        assert StepRefs(plan.steps)[0] in a.groundedSourceRefs by {
          assert (StepRefs(plan.steps) + Gathered(plan.steps, outputs, ArtifactsOf))[0] in d.sourceRefs;
        }
      }
    }
  }

  lemma ReasonsAreNotBlank(reasons: seq<string>, warnings: seq<string>)
    ensures !Blank(FallbackReasons(reasons, warnings))
  {
    var values := [PUBLIC_WARNING] + ((if reasons == [] then [] else [FALLBACK_LIMITATION])
      + (if warnings == [] then [] else [TOOL_WARNING]));
    assert values[0] == PUBLIC_WARNING && PUBLIC_WARNING[0] == 'A';
    JoinContains(" ", Dedupe(values), PUBLIC_WARNING);
    ContainsIsNotBlank(FallbackReasons(reasons, warnings), PUBLIC_WARNING);
  }

  lemma PlainFallbackShape(w: Wording, t: Tables, plan: Plan, outputs: seq<Output>, reasons: seq<string>)
    requires plan.steps != []
    ensures var a := PlainFallback(t, plan, outputs, reasons);
      && UnsupportedRefs(w, a, plan, outputs) == []
      && a.groundedSourceRefs != [] && !Blank(a.basis) && !Blank(a.risksCaveats)
  {
    var a := PlainFallback(t, plan, outputs, reasons);
    DetailRefsAreValid(w, plan, outputs);
    ValidRefsAreSupported(w, plan, outputs, a);
    ReasonsAreNotBlank(reasons, DetailsOf(plan.steps, outputs).warnings);
    StepsAreCited(plan.steps, Gathered(plan.steps, outputs, ArtifactsOf));
    HeadingIsNotBlank(Join(", ", ToolNames(plan.steps)));
  }

  /** Every missing artifact, price basis and corporate action reported is named by the summary or by a tool's name. */
  ghost predicate NamedInPassing(r: Reading, plan: Plan, outputs: seq<Output>, summary: string) {
    forall x :: x in AllMissing(r.wording, outputs) || x in AllDisclosures(outputs) ==>
      Contains(summary, x) || exists s :: s in plan.steps && Contains(s.toolName, x)
  }

  lemma {:induction false} ToolIsNamed(steps: seq<Step>, s: Step)
    requires s in steps
    ensures s.toolName in ToolNames(steps)
  {
    if s != steps[0] {
      ToolIsNamed(steps[1..], s);
    }
  }

  lemma PlainTextNames(t: Tables, plan: Plan, outputs: seq<Output>, reasons: seq<string>, s: Step, x: string)
    requires s in plan.steps && Contains(s.toolName, x)
    ensures Contains(PlainFallback(t, plan, outputs, reasons).basis, x)
  {
    var list := Join(", ", ToolNames(plan.steps));
    ToolIsNamed(plan.steps, s);
    JoinContains(", ", ToolNames(plan.steps), s.toolName);
    ContainsIsTransitive(list, s.toolName, x);
    assert Headed("Deterministic tools", list) == ("Deterministic tools" + ": ") + list + "";
    ContainsMiddle("Deterministic tools" + ": ", list, "");
    ContainsIsTransitive(Headed("Deterministic tools", list), list, x);
  }

  lemma NamedInPassingIsDisclosed(r: Reading, t: Tables, plan: Plan, outputs: seq<Output>, reasons: seq<string>)
    requires NamedInPassing(r, plan, outputs, PlainFallback(t, plan, outputs, reasons).summary)
    ensures DisclosesAll(r, outputs, PlainFallback(t, plan, outputs, reasons))
  {
    var a := PlainFallback(t, plan, outputs, reasons);
    var parts := [a.summary, a.basis, a.risksCaveats] + a.missingData;
    assert parts[0] == a.summary && parts[1] == a.basis;
    forall x | x in AllMissing(r.wording, outputs) || x in AllDisclosures(outputs)
      ensures Discloses(r.fold, DisclosedText(r.fold, a), x)
      ensures DisclosesBasis(r.fold, Spaced(DisclosedText(r.fold, a)), x)
    {
      if Contains(a.summary, x) {
        TextDiscloses(r.fold, a, a.summary, x);
      } else {
        var s :| s in plan.steps && Contains(s.toolName, x);
        PlainTextNames(t, plan, outputs, reasons, s, x);
        TextDiscloses(r.fold, a, a.basis, x);
      }
    }
  }

  /**
   * The plain fallback lists no missing data and names no price basis: it cites nothing unsupported, but passes
   * exactly when its summary, its list of tools and its reasons together happen to mention everything the outputs
   * require.  So they do when nothing is required, or when the summary and the names of the tools name it all.
   */
  lemma PlainFallbackPassesIff(r: Reading, t: Tables, plan: Plan, outputs: seq<Output>, reasons: seq<string>)
    requires plan.steps != []
    ensures
      var a := PlainFallback(t, plan, outputs, reasons);
      var v := Validated(r, a, plan, outputs);
      && v.unsupportedSourceRefs == []
      && (v.status.Pass? <==> v.unsupportedNumericClaims == [] && DisclosesAll(r, outputs, a))
      && (NamedInPassing(r, plan, outputs, a.summary) ==>
            (v.status.Pass? <==> v.unsupportedNumericClaims == []))
  {
    var a := PlainFallback(t, plan, outputs, reasons);
    PlainFallbackShape(r.wording, t, plan, outputs, reasons);
    SupportedIffValid(r.wording, plan, outputs, a);
    PassesIffGrounded(r, plan, outputs, a);
    if NamedInPassing(r, plan, outputs, a.summary) {
      NamedInPassingIsDisclosed(r, t, plan, outputs, reasons);
    }
  }

  // ---------------------------------------------------------------------------
  // When there is a fallback, and what it says
  // ---------------------------------------------------------------------------

  /** There is a fallback exactly for an unrefused plan of reading tools each of which left a non-empty dictionary. */
  lemma FallbackExistsIff(w: Wording, t: Tables, plan: Plan, outputs: seq<Output>, reasons: seq<string>)
    ensures BuildDeterministicToolAnswer(w, t, plan, outputs, reasons).Some? <==>
      && plan.steps != [] && !plan.refused && plan.intent != "unsupported_or_unsafe"
      && forall s :: s in plan.steps ==>
           && t.readsOnly(s.toolName)
           && Find(outputs, s.stepId).Some? && Find(outputs, s.stepId).value.Dict?
           && Find(outputs, s.stepId).value.fields != map[]
  {
    if forall s :: s in plan.steps ==>
         t.readsOnly(s.toolName) && Find(outputs, s.stepId).Some? && Find(outputs, s.stepId).value.Dict?
         && Find(outputs, s.stepId).value.fields != map[] {
      forall i | 0 <= i < |plan.steps|
        ensures t.readsOnly(plan.steps[i].toolName) && OutputOf(outputs, plan.steps[i]) != map[]
      {
        assert plan.steps[i] in plan.steps;
      }
      if plan.steps != [] {
        assert plan.steps[0] in plan.steps;
      }
    }
  }

  /** A step's output warns of `x`. */
  ghost predicate Warns(outputs: seq<Output>, s: Step, x: string) {
    var fields := OutputOf(outputs, s);
    x != "" && "warnings" in fields && fields["warnings"].List? && Str(x) in fields["warnings"].items
  }

  lemma {:induction false} StringsInAre(items: seq<Value>, x: string)
    ensures x in StringsIn(items) <==> x != "" && Str(x) in items
  {
    if items != [] {
      StringsInAre(items[1..], x);
      assert items == [items[0]] + items[1..];
    }
  }

  lemma WarnedIff(outputs: seq<Output>, steps: seq<Step>)
    ensures DetailsOf(steps, outputs).warnings == [] <==> forall s, x :: s in steps ==> !Warns(outputs, s, x)
  {
    var all := Gathered(steps, outputs, WarningsOf);
    if DetailsOf(steps, outputs).warnings != [] {
      var x := DetailsOf(steps, outputs).warnings[0];
      assert x in all;
      var s :| s in steps && x in WarningsOf(OutputOf(outputs, s));
      StringsInAre(OutputOf(outputs, s)["warnings"].items, x);
      assert Warns(outputs, s, x);
    }
    if exists s, x :: s in steps && Warns(outputs, s, x) {
      var s, x :| s in steps && Warns(outputs, s, x);
      StringsInAre(OutputOf(outputs, s)["warnings"].items, x);
      assert x in all;
      assert x in DetailsOf(steps, outputs).warnings;
    }
  }

  /** The reasons: always that the model was not used, the limits if a cause was given, a caveat if a tool warned. */
  lemma ReasonsSay(reasons: seq<string>, warnings: seq<string>)
    ensures FallbackReasons(reasons, warnings) ==
      Join(" ", [PUBLIC_WARNING] + (if reasons == [] then [] else [FALLBACK_LIMITATION])
                + if warnings == [] then [] else [TOOL_WARNING])
  {
    var (a, b, c) := (PUBLIC_WARNING, FALLBACK_LIMITATION, TOOL_WARNING);
    assert a[0] == 'A' && b[0] == 'D' && c[0] == 'T';
    var limits := if reasons == [] then [] else [b];
    var tool := if warnings == [] then [] else [c];
    assert [a] + (limits + tool) == [a] + limits + tool;
    DistinctStays([a] + limits + tool);
  }

  lemma {:induction false} DistinctStays(s: seq<string>)
    requires forall i, j :: 0 <= i < j < |s| ==> s[i] != s[j]
    ensures Dedupe(s) == s
  {
    if s != [] {
      var before := s[..|s| - 1];
      DistinctStays(before);
      assert s[|s| - 1] !in before;
      assert s == before + [s[|s| - 1]];
    }
  }

  /** The output of a step names an artifact under its `data`. */
  predicate Cites(fields: Payload, x: string) {
    && "data" in fields && fields["data"].Dict? && "artifact_refs" in fields["data"].fields
    && fields["data"].fields["artifact_refs"].List?
    && x != "" && Str(x) in fields["data"].fields["artifact_refs"].items
  }

  lemma CitesIff(fields: Payload, x: string)
    ensures x in ArtifactsOf(fields) <==> Cites(fields, x)
  {
    if Cites(fields, x) {
      StringsInAre(fields["data"].fields["artifact_refs"].items, x);
    }
  }

  /** The fallback of other intents: the first summary a step gave, its tools, its reasons, and what it cites. */
  lemma PlainFallbackSays(t: Tables, plan: Plan, outputs: seq<Output>, reasons: seq<string>, x: string)
    ensures var (a, d) := (PlainFallback(t, plan, outputs, reasons), DetailsOf(plan.steps, outputs));
      && a.summary == (if d.summaries == [] then t.dataSummary(plan, outputs) else d.summaries[0])
      && a.basis == "Deterministic tools" + ": " + Join(", ", ToolNames(plan.steps))
      && a.risksCaveats == FallbackReasons(reasons, d.warnings) && a.missingData == [] && a.claimSourceRefs == []
      && (x in a.groundedSourceRefs <==>
            || (exists s :: s in plan.steps && x == "tool:" + s.toolName + ":" + s.stepId)
            || (exists s :: s in plan.steps && Cites(OutputOf(outputs, s), x)))
  {
    StepRefsAre(plan.steps, x);
    forall s | s in plan.steps
      ensures x in ArtifactsOf(OutputOf(outputs, s)) <==> Cites(OutputOf(outputs, s), x)
    {
      CitesIff(OutputOf(outputs, s), x);
    }
  }

  lemma {:induction false} DedupeKeepsFirst(s: seq<string>)
    requires s != []
    ensures Dedupe(s) != [] && Dedupe(s)[0] == s[0]
  {
    if |s| > 1 {
      DedupeKeepsFirst(s[..|s| - 1]);
    } else {
      assert s[..0] == [];
    }
  }

  lemma {:induction false} NothingGathered(steps: seq<Step>, outputs: seq<Output>, from: Payload -> seq<string>)
    requires forall j :: 0 <= j < |steps| ==> from(OutputOf(outputs, steps[j])) == []
    ensures Gathered(steps, outputs, from) == []
  {
    if steps != [] {
      NothingGathered(steps[..|steps| - 1], outputs, from);
    }
  }

  lemma {:induction false} GatheredStartsWith(steps: seq<Step>, outputs: seq<Output>, from: Payload -> seq<string>,
                                              i: nat)
    requires i < |steps| && from(OutputOf(outputs, steps[i])) != []
    requires forall j :: 0 <= j < i ==> from(OutputOf(outputs, steps[j])) == []
    ensures Gathered(steps, outputs, from) != []
    ensures Gathered(steps, outputs, from)[0] == from(OutputOf(outputs, steps[i]))[0]
  {
    var before := steps[..|steps| - 1];
    if i < |steps| - 1 {
      GatheredStartsWith(before, outputs, from, i);
    } else {
      NothingGathered(before, outputs, from);
    }
  }

  /** The output of a step has a summary. */
  predicate Summarizes(fields: Payload, x: string) {
    "summary" in fields && fields["summary"] == Str(x) && x != ""
  }

  /** The summary it starts with is that of the first step that has one. */
  lemma FirstSummaryIsFirst(steps: seq<Step>, outputs: seq<Output>, i: nat, x: string)
    requires i < |steps| && Summarizes(OutputOf(outputs, steps[i]), x)
    requires forall j, y :: 0 <= j < i ==> !Summarizes(OutputOf(outputs, steps[j]), y)
    ensures DetailsOf(steps, outputs).summaries != []
    ensures DetailsOf(steps, outputs).summaries[0] == x
  {
    forall j | 0 <= j < i
      ensures SummaryOf(OutputOf(outputs, steps[j])) == []
    {
      SummaryIsFound(OutputOf(outputs, steps[j]));
    }
    GatheredStartsWith(steps, outputs, SummaryOf, i);
    DedupeKeepsFirst(Gathered(steps, outputs, SummaryOf));
  }

  lemma SummaryIsFound(fields: Payload)
    ensures (forall y :: !Summarizes(fields, y)) ==> SummaryOf(fields) == []
  {
    if SummaryOf(fields) != [] {
      assert Summarizes(fields, SummaryOf(fields)[0]);
    }
  }

  /** Without one there is none to start with. */
  lemma NoSummary(steps: seq<Step>, outputs: seq<Output>)
    ensures DetailsOf(steps, outputs).summaries == [] <==>
      forall s, x :: s in steps ==> !Summarizes(OutputOf(outputs, s), x)
  {
    if forall s, x :: s in steps ==> !Summarizes(OutputOf(outputs, s), x) {
      forall j | 0 <= j < |steps|
        ensures SummaryOf(OutputOf(outputs, steps[j])) == []
      {
        SummaryIsFound(OutputOf(outputs, steps[j]));
      }
      NothingGathered(steps, outputs, SummaryOf);
    }
    forall s, x | s in steps && Summarizes(OutputOf(outputs, s), x)
      ensures DetailsOf(steps, outputs).summaries != []
    {
      assert SummaryOf(OutputOf(outputs, s)) == [x];
      assert x in Gathered(steps, outputs, SummaryOf);
    }
  }

  /** The research fallback is the research answer for its reasons, and names the first summary if there is one. */
  lemma ResearchFallbackSays(w: Wording, plan: Plan, outputs: seq<Output>, reasons: seq<string>)
    ensures var (a, d) := (ResearchFallback(w, plan, outputs, reasons), DetailsOf(plan.steps, outputs));
      var built := BuildDeterministicResearchAnswer(w, plan, outputs, [FallbackReasons(reasons, d.warnings)]);
      && a.basis == (if d.summaries == [] then built.basis
                     else built.basis + ("; " + ("Tool result" + ": " + d.summaries[0])))
      && a == built.(basis := a.basis, groundedSourceRefs := a.groundedSourceRefs)
      && forall x :: x in a.groundedSourceRefs <==> x in built.groundedSourceRefs
  {
    var d := DetailsOf(plan.steps, outputs);
    var r := [FallbackReasons(reasons, d.warnings)];
    forall x | x in d.sourceRefs
      ensures x in BuildDeterministicResearchAnswer(w, plan, outputs, r).groundedSourceRefs
    {
      DetailIsBuilt(w, plan, outputs, r, x);
    }
  }

  /** The references a tool result adds are in the research answer already. */
  lemma DetailIsBuilt(w: Wording, plan: Plan, outputs: seq<Output>, reasons: seq<string>, x: string)
    requires x in DetailsOf(plan.steps, outputs).sourceRefs
    ensures x in BuildDeterministicResearchAnswer(w, plan, outputs, reasons).groundedSourceRefs
  {
    StepRefsAre(plan.steps, x);
    BuiltRefsAre(w, plan, outputs, reasons, x);
    if x in Gathered(plan.steps, outputs, ArtifactsOf) {
      var s :| s in plan.steps && x in ArtifactsOf(OutputOf(outputs, s));
      CitedIsListed(w, plan, outputs, s, x);
    }
  }

  lemma CitedIsListed(w: Wording, plan: Plan, outputs: seq<Output>, s: Step, x: string)
    requires s in plan.steps && x in ArtifactsOf(OutputOf(outputs, s))
    ensures exists p :: p in Payloads(plan.steps, outputs) && Lists(w, p, "artifact_refs", x)
  {
    CitesIff(OutputOf(outputs, s), x);
    var data := OutputOf(outputs, s)["data"].fields;
    assert PayloadOf(outputs, s.stepId) == Some(data);
    StringIsShown(w, data["artifact_refs"].items, x);
    ListsIff(w, data, "artifact_refs", x);
  }

  lemma {:induction false} GatheredOfConcat(a: seq<Step>, b: seq<Step>, outputs: seq<Output>,
                                            from: Payload -> seq<string>)
    ensures Gathered(a + b, outputs, from) == Gathered(a, outputs, from) + Gathered(b, outputs, from)
    decreases |b|
  {
    if b == [] {
      assert a + b == a;
    } else {
      assert (a + b)[..|a + b| - 1] == a + b[..|b| - 1];
      GatheredOfConcat(a, b[..|b| - 1], outputs, from);
    }
  }

  /** What the first steps give comes before what the others give. */
  lemma EarlierDetailsComeFirst(a: seq<Step>, b: seq<Step>, outputs: seq<Output>)
    ensures DetailsOf(a, outputs).summaries <= DetailsOf(a + b, outputs).summaries
    ensures DetailsOf(a, outputs).warnings <= DetailsOf(a + b, outputs).warnings
  {
    GatheredOfConcat(a, b, outputs, SummaryOf);
    GatheredOfConcat(a, b, outputs, WarningsOf);
    DedupeOfPrefix(Gathered(a, outputs, SummaryOf), Gathered(b, outputs, SummaryOf));
    DedupeOfPrefix(Gathered(a, outputs, WarningsOf), Gathered(b, outputs, WarningsOf));
  }
}
