/** Deterministic research answers, `research_templates.py`. */
module ResearchTemplates {
  import opened Common

  const RESEARCH_ONLY_CAVEAT: string :=
    "Research-only " + ("context based on " + ("persisted artifacts; "
    + ("not a recommendation or " + ("an instruction to " + "place an order."))))
  const CAVEAT_FIRST_INTENTS: set<string> := {"review_market_regime", "review_sector_strength"}

  /** A structured tool result; Python's lists and tuples are both `List`. */
  datatype Value =
    | Null
    | Bool(b: bool)
    | Num(n: real)
    | Str(s: string)
    | List(items: seq<Value>)
    | Dict(fields: map<string, Value>)

  type Payload = map<string, Value>

  datatype Step = Step(stepId: string, toolName: string)
  datatype Plan = Plan(intent: string, steps: seq<Step>, refused: bool)

  /** One entry of the dictionary of tool outputs, in its insertion order. */
  datatype Output = Output(stepId: string, value: Value)

  datatype Answer = Answer(
    summary: string,
    basis: string,
    risksCaveats: string,
    missingData: seq<string>,
    groundedSourceRefs: seq<string>,
    claimSourceRefs: seq<seq<string>>)

  /** How values that are not strings print, and the one-sentence summary of an intent. */
  datatype Wording = Wording(render: Value -> string, summarize: (string, seq<Payload>) -> string)

  predicate Truthy(v: Value) {
    match v
    case Null => false
    case Bool(b) => b
    case Num(n) => n != 0.0
    case Str(s) => s != ""
    case List(items) => items != []
    case Dict(fields) => fields != map[]
  }

  function Show(w: Wording, v: Value): string {
    if v.Str? then v.s else w.render(v)
  }

  /** `output.get("data", output)` of a dictionary, when it is a dictionary itself. */
  function DataOf(output: Value): Option<Payload> {
    if !output.Dict? then None
    else
      var data := if "data" in output.fields then output.fields["data"] else output;
      if data.Dict? then Some(data.fields) else None
  }

  function Find(outputs: seq<Output>, stepId: string): (r: Option<Value>)
    ensures r.Some? ==> Output(stepId, r.value) in outputs
    ensures r.None? ==> forall o :: o in outputs ==> o.stepId != stepId
  {
    if outputs == [] then None
    else if outputs[0].stepId == stepId then Some(outputs[0].value)
    else Find(outputs[1..], stepId)
  }

  /** The payload a step's output carries, if any. */
  function PayloadOf(outputs: seq<Output>, stepId: string): Option<Payload> {
    match Find(outputs, stepId) case None => None case Some(output) => DataOf(output)
  }

  function Payloads(steps: seq<Step>, outputs: seq<Output>): (r: seq<Payload>)
    ensures forall p :: p in r <==> exists s :: s in steps && PayloadOf(outputs, s.stepId) == Some(p)
  {
    if steps == [] then []
    else
      var last := PayloadOf(outputs, steps[|steps| - 1].stepId);
      assert steps == steps[..|steps| - 1] + [steps[|steps| - 1]];
      Payloads(steps[..|steps| - 1], outputs) + (if last.Some? then [last.value] else [])
  }

  method CollectPayloads(plan: Plan, outputs: seq<Output>) returns (payloads: seq<Payload>)
    ensures payloads == Payloads(plan.steps, outputs)
  {
    payloads := [];
    for i := 0 to |plan.steps|
      invariant payloads == Payloads(plan.steps[..i], outputs)
    {
      assert plan.steps[..i + 1][..i] == plan.steps[..i];
      var output := Find(outputs, plan.steps[i].stepId);
      if output.None? || !output.value.Dict? {
        continue;
      }
      var fields := output.value.fields;
      var data := if "data" in fields then fields["data"] else output.value;
      if data.Dict? {
        payloads := payloads + [data.fields];
      }
    }
    assert plan.steps[..|plan.steps|] == plan.steps;
  }

  /** `str(item) for item in items if item`. */
  function Shown(w: Wording, items: seq<Value>): (r: seq<string>)
    ensures forall x :: x in r <==> exists v :: v in items && Truthy(v) && Show(w, v) == x
  {
    if items == [] then []
    else
      assert items == [items[0]] + items[1..];
      (if Truthy(items[0]) then [Show(w, items[0])] else []) + Shown(w, items[1..])
  }

  /** What a payload lists under a field. */
  function Listed(w: Wording, payload: Payload, field: string): seq<string> {
    if field in payload && payload[field].List? then Shown(w, payload[field].items) else []
  }

  function AllListed(w: Wording, payloads: seq<Payload>, field: string): (r: seq<string>)
    ensures forall x :: x in r <==> exists p :: p in payloads && x in Listed(w, p, field)
  {
    if payloads == [] then []
    else
      assert payloads == payloads[..|payloads| - 1] + [payloads[|payloads| - 1]];
      AllListed(w, payloads[..|payloads| - 1], field) + Listed(w, payloads[|payloads| - 1], field)
  }

  method CollectList(w: Wording, payloads: seq<Payload>, field: string) returns (values: seq<string>)
    ensures values == Dedupe(AllListed(w, payloads, field))
  {
    values := [];
    for i := 0 to |payloads|
      invariant values == AllListed(w, payloads[..i], field)
    {
      assert payloads[..i + 1][..i] == payloads[..i];
      var raw := if field in payloads[i] then payloads[i][field] else List([]);
      if raw.List? {
        values := values + Shown(w, raw.items);
      }
    }
    assert payloads[..|payloads|] == payloads;
    values := Dedupe(values);
  }

  function StepRef(s: Step): string {
    "tool:" + s.toolName + ":" + s.stepId
  }

  function StepRefs(steps: seq<Step>): (r: seq<string>)
    ensures |r| == |steps| && forall i :: 0 <= i < |r| ==> r[i] == StepRef(steps[i])
  {
    if steps == [] then [] else [StepRef(steps[0])] + StepRefs(steps[1..])
  }

  function ToolNames(steps: seq<Step>): (r: seq<string>)
    ensures |r| == |steps| && forall i :: 0 <= i < |r| ==> r[i] == steps[i].toolName
  {
    if steps == [] then [] else [steps[0].toolName] + ToolNames(steps[1..])
  }

  /** The price bases the payloads name. */
  function PriceBases(w: Wording, payloads: seq<Payload>): (r: seq<string>)
    ensures forall p :: p in payloads && "price_basis" in p && Truthy(p["price_basis"]) ==>
      Show(w, p["price_basis"]) in r
  {
    if payloads == [] then []
    else
      var p := payloads[0];
      (if "price_basis" in p && Truthy(p["price_basis"]) then [Show(w, p["price_basis"])] else [])
      + PriceBases(w, payloads[1..])
  }

  /** A text under a heading. */
  function Headed(heading: string, text: string): string {
    heading + ": " + text
  }

  function Summary(w: Wording, plan: Plan, payloads: seq<Payload>, missing: seq<string>, caveats: seq<string>): string {
    var summary := w.summarize(plan.intent, payloads);
    if missing != [] then
      Headed("Caveat", Headed("missing persisted artifacts", Join(", ", missing) + ". " + summary))
    else if plan.intent in CAVEAT_FIRST_INTENTS && caveats != [] then
      Headed("Caveat", "persisted context includes " + "limitations" + ". " + summary)
    else summary
  }

  function Basis(w: Wording, plan: Plan, payloads: seq<Payload>): string {
    var names := ToolNames(plan.steps);
    var bases := Dedupe(PriceBases(w, payloads));
    Headed("Deterministic tools", Join(", ", if names == [] then ["none"] else names))
    + (if bases == [] then "" else "; " + Headed("Price basis", Join(", ", bases)))
  }

  function BuildDeterministicResearchAnswer(w: Wording, plan: Plan, outputs: seq<Output>,
                                            reasons: seq<string>): Answer {
    var payloads := Payloads(plan.steps, outputs);
    var missing := Dedupe(AllListed(w, payloads, "missing_data"));
    var caveats := Dedupe(AllListed(w, payloads, "caveats"));
    Answer(
      Summary(w, plan, payloads, missing, caveats),
      Basis(w, plan, payloads),
      Join(" ", Dedupe(NonEmpty(caveats + reasons + [RESEARCH_ONLY_CAVEAT]))),
      missing,
      Dedupe(StepRefs(plan.steps) + Dedupe(AllListed(w, payloads, "artifact_refs"))),
      [])
  }

  // ---------------------------------------------------------------------------
  // The order of what is collected
  // ---------------------------------------------------------------------------

  lemma {:induction false} ShownOfConcat(w: Wording, a: seq<Value>, b: seq<Value>)
    ensures Shown(w, a + b) == Shown(w, a) + Shown(w, b)
  {
    if a == [] {
      assert a + b == b;
    } else {
      assert (a + b)[1..] == a[1..] + b;
      ShownOfConcat(w, a[1..], b);
    }
  }

  lemma AllListedOneMore(w: Wording, s: seq<Payload>, p: Payload, field: string)
    ensures AllListed(w, s + [p], field) == AllListed(w, s, field) + Listed(w, p, field)
  {
    assert (s + [p])[..|s|] == s;
  }

  lemma {:induction false} AllListedOfConcat(w: Wording, a: seq<Payload>, b: seq<Payload>, field: string)
    ensures AllListed(w, a + b, field) == AllListed(w, a, field) + AllListed(w, b, field)
    decreases |b|
  {
    if b == [] {
      assert a + b == a;
    } else {
      var before, last := b[..|b| - 1], b[|b| - 1];
      assert b == before + [last];
      ConcatIsAssociative(a, before, [last]);
      AllListedOfConcat(w, a, before, field);
      AllListedOneMore(w, a + before, last, field);
      AllListedOneMore(w, before, last, field);
      ConcatIsAssociative(AllListed(w, a, field), AllListed(w, before, field), Listed(w, last, field));
    }
  }

  lemma {:induction false} PayloadsOfConcat(a: seq<Step>, b: seq<Step>, outputs: seq<Output>)
    ensures Payloads(a + b, outputs) == Payloads(a, outputs) + Payloads(b, outputs)
    decreases |b|
  {
    if b == [] {
      assert a + b == a;
    } else {
      assert (a + b)[..|a + b| - 1] == a + b[..|b| - 1];
      PayloadsOfConcat(a, b[..|b| - 1], outputs);
    }
  }

  lemma {:induction false} PriceBasesOfConcat(w: Wording, a: seq<Payload>, b: seq<Payload>)
    ensures PriceBases(w, a + b) == PriceBases(w, a) + PriceBases(w, b)
  {
    if a == [] {
      assert a + b == b;
    } else {
      assert (a + b)[1..] == a[1..] + b;
      PriceBasesOfConcat(w, a[1..], b);
    }
  }

  /** The first `k` steps decide how each list starts: payloads, what they list under a field, and their bases. */
  lemma EarlierStepsComeFirst(w: Wording, steps: seq<Step>, outputs: seq<Output>, field: string, k: nat)
    requires k <= |steps|
    ensures var (early, all) := (Payloads(steps[..k], outputs), Payloads(steps, outputs));
      && early <= all
      && Dedupe(AllListed(w, early, field)) <= Dedupe(AllListed(w, all, field))
      && Dedupe(PriceBases(w, early)) <= Dedupe(PriceBases(w, all))
  {
    var early, late := Payloads(steps[..k], outputs), Payloads(steps[k..], outputs);
    assert steps == steps[..k] + steps[k..];
    PayloadsOfConcat(steps[..k], steps[k..], outputs);
    AllListedOfConcat(w, early, late, field);
    PriceBasesOfConcat(w, early, late);
    DedupeOfPrefix(AllListed(w, early, field), AllListed(w, late, field));
    DedupeOfPrefix(PriceBases(w, early), PriceBases(w, late));
  }
}
