/** The fail-closed groundedness validator, `groundedness.py`, and the answers that pass it. */
module Groundedness {
  import opened Common
  import opened ResearchTemplates

  datatype Status = Pass | Partial | Fail

  datatype GroundednessResult = GroundednessResult(
    status: Status,
    unsupportedSourceRefs: seq<string>,
    unsupportedNumericClaims: seq<string>,
    undisclosedMissingData: seq<string>)

  function AsciiLower(c: char): char {
    if 'A' <= c <= 'Z' then c - 'A' + 'a' else c
  }

  /** In ASCII codes: A to Z are 65 to 90, and their small letters follow 32 later. */
  lemma CapitalsAreLowered(c: char)
    ensures AsciiLower(c) as int == c as int + if 65 <= c as int <= 90 then 32 else 0
  {
  }

  /** Lower-casing one character at a time: what it makes of ASCII is known, other characters may become any text. */
  ghost predicate LowersAscii(fold: char -> string) {
    forall c: char :: c < '\U{80}' ==> fold(c) == [AsciiLower(c)]
  }

  type Lowering = fold: char -> string | LowersAscii(fold) witness (c: char) => [AsciiLower(c)]

  /** Lower-casing, and the numeric claims no payload number supports. */
  datatype Reading = Reading(
    wording: Wording,
    fold: Lowering,
    unsupportedNumbers: (Answer, seq<Output>) -> seq<string>)

  // ---------------------------------------------------------------------------
  // Text
  // ---------------------------------------------------------------------------

  function Lower(fold: char -> string, s: string): string {
    if s == "" then "" else fold(s[0]) + Lower(fold, s[1..])
  }

  /** `text.replace("-", " ")`. */
  function Spaced(s: string): string {
    if s == "" then "" else [if s[0] == '-' then ' ' else s[0]] + Spaced(s[1..])
  }

  predicate OccursAt(text: string, part: string, i: nat) {
    i + |part| <= |text| && text[i..i + |part|] == part
  }

  predicate Contains(text: string, part: string) {
    exists i | 0 <= i <= |text| :: OccursAt(text, part, i)
  }

  predicate Blank(s: string) {
    forall i | 0 <= i < |s| :: IsSpace(s[i])
  }

  lemma {:induction false} LowerOfConcat(fold: char -> string, a: string, b: string)
    ensures Lower(fold, a + b) == Lower(fold, a) + Lower(fold, b)
    decreases |a|
  {
    if a == "" {
      assert a + b == b;
    } else {
      LowerOfConcat(fold, a[1..], b);
      assert (a + b)[1..] == a[1..] + b;
      ConcatIsAssociative(fold(a[0]), Lower(fold, a[1..]), Lower(fold, b));
    }
  }

  lemma {:induction false} SpacedOfConcat(a: string, b: string)
    ensures Spaced(a + b) == Spaced(a) + Spaced(b)
  {
    if a == "" {
      assert a + b == b;
    } else {
      SpacedOfConcat(a[1..], b);
      assert (a + b)[1..] == a[1..] + b;
    }
  }

  lemma ContainsMiddle(before: string, part: string, after: string)
    ensures Contains(before + part + after, part)
  {
    assert OccursAt(before + part + after, part, |before|);
  }

  /** Containment survives folding case and replacing hyphens. */
  lemma FoldedContains(fold: char -> string, text: string, part: string)
    requires Contains(text, part)
    ensures Contains(Lower(fold, text), Lower(fold, part))
    ensures Contains(Spaced(Lower(fold, text)), Spaced(Lower(fold, part)))
  {
    var i: nat :| i <= |text| && OccursAt(text, part, i);
    var a, b := text[..i], text[i + |part|..];
    assert text == a + part + b;
    LowerOfConcat(fold, a + part, b);
    LowerOfConcat(fold, a, part);
    var la, lp, lb := Lower(fold, a), Lower(fold, part), Lower(fold, b);
    ContainsMiddle(la, lp, lb);
    SpacedOfConcat(la + lp, lb);
    SpacedOfConcat(la, lp);
    ContainsMiddle(Spaced(la), Spaced(lp), Spaced(lb));
  }

  lemma ContainsIsTransitive(text: string, middle: string, part: string)
    requires Contains(text, middle) && Contains(middle, part)
    ensures Contains(text, part)
  {
    var i: nat :| i <= |text| && OccursAt(text, middle, i);
    var j: nat :| j <= |middle| && OccursAt(middle, part, j);
    var a, b := text[..i], text[i + |middle|..];
    var c, d := middle[..j], middle[j + |part|..];
    assert text == a + middle + b && middle == c + part + d;
    assert text == (a + c) + part + (d + b);
    ContainsMiddle(a + c, part, d + b);
  }

  /** A joined text contains each of its parts. */
  lemma {:induction false} JoinContains(separator: string, parts: seq<string>, part: string)
    requires part in parts
    ensures Contains(Join(separator, parts), part)
    decreases |parts|
  {
    if |parts| == 1 {
      assert part == parts[0];
      assert OccursAt(part, part, 0);
    } else {
      var rest := Join(separator, parts[1..]);
      if part == parts[0] {
        assert Join(separator, parts) == "" + part + (separator + rest);
        ContainsMiddle("", part, separator + rest);
      } else {
        assert parts == [parts[0]] + parts[1..];
        JoinContains(separator, parts[1..], part);
        assert Join(separator, parts) == (parts[0] + separator) + rest + "";
        ContainsMiddle(parts[0] + separator, rest, "");
        ContainsIsTransitive(Join(separator, parts), rest, part);
      }
    }
  }

  // ---------------------------------------------------------------------------
  // What the plan and the outputs require
  // ---------------------------------------------------------------------------

  function PlanRefs(steps: seq<Step>): (r: set<string>)
    ensures forall s :: s in steps ==> StepRef(s) in r
  {
    (set s | s in steps :: StepRef(s)) + (set s | s in steps :: s.toolName) + (set s | s in steps :: s.stepId)
  }

  /** The references an output makes valid. */
  function OutputRefs(w: Wording, o: Output): set<string> {
    {o.stepId} + match DataOf(o.value) case None => {} case Some(p) => set x | x in Listed(w, p, "artifact_refs")
  }

  function AllOutputRefs(w: Wording, outputs: seq<Output>): (r: set<string>)
    ensures forall x :: x in r <==> exists o :: o in outputs && x in OutputRefs(w, o)
  {
    if outputs == [] then {}
    else
      assert outputs == outputs[..|outputs| - 1] + [outputs[|outputs| - 1]];
      AllOutputRefs(w, outputs[..|outputs| - 1]) + OutputRefs(w, outputs[|outputs| - 1])
  }

  method ValidSourceRefs(w: Wording, plan: Plan, outputs: seq<Output>) returns (refs: set<string>)
    ensures refs == PlanRefs(plan.steps) + AllOutputRefs(w, outputs)
  {
    var ids := set o | o in outputs :: o.stepId;
    refs := PlanRefs(plan.steps) + ids;
    ghost var base := refs;
    for i := 0 to |outputs|
      invariant refs == base + AllOutputRefs(w, outputs[..i])
    {
      assert outputs[..i + 1][..i] == outputs[..i];
      var data := DataOf(outputs[i].value);
      if data.None? {
        continue;
      }
      var artifactRefs := if "artifact_refs" in data.value then data.value["artifact_refs"] else List([]);
      if artifactRefs.List? {
        refs := refs + set x | x in Shown(w, artifactRefs.items);
      }
    }
    assert outputs[..|outputs|] == outputs;
    assert ids <= AllOutputRefs(w, outputs);
  }

  function OutputMissing(w: Wording, o: Output): seq<string> {
    match DataOf(o.value) case None => [] case Some(p) => Listed(w, p, "missing_data")
  }

  function AllMissing(w: Wording, outputs: seq<Output>): (r: seq<string>)
    ensures forall x :: x in r <==> exists o :: o in outputs && x in OutputMissing(w, o)
  {
    if outputs == [] then []
    else
      assert outputs == outputs[..|outputs| - 1] + [outputs[|outputs| - 1]];
      AllMissing(w, outputs[..|outputs| - 1]) + OutputMissing(w, outputs[|outputs| - 1])
  }

  method MissingData(w: Wording, outputs: seq<Output>) returns (missing: seq<string>)
    ensures missing == Dedupe(AllMissing(w, outputs))
  {
    var values: seq<string> := [];
    for i := 0 to |outputs|
      invariant values == AllMissing(w, outputs[..i])
    {
      assert outputs[..i + 1][..i] == outputs[..i];
      var data := DataOf(outputs[i].value);
      if data.None? {
        continue;
      }
      var raw := if "missing_data" in data.value then data.value["missing_data"] else List([]);
      if raw.List? {
        values := values + Shown(w, raw.items);
      }
    }
    assert outputs[..|outputs|] == outputs;
    missing := Dedupe(values);
  }

  predicate NamesBasis(p: Payload) {
    "price_basis" in p && p["price_basis"].Str? && p["price_basis"].s != ""
  }

  predicate HasActionOverlap(p: Payload) {
    "corporate_action_overlap" in p && p["corporate_action_overlap"] == Bool(true)
  }

  const CORPORATE_ACTION := "corporate action"

  function OutputDisclosures(o: Output): seq<string> {
    match DataOf(o.value)
    case None => []
    case Some(p) =>
      (if NamesBasis(p) then [p["price_basis"].s] else []) + (if HasActionOverlap(p) then [CORPORATE_ACTION] else [])
  }

  function AllDisclosures(outputs: seq<Output>): (r: seq<string>)
    ensures forall x :: x in r <==> exists o :: o in outputs && x in OutputDisclosures(o)
  {
    if outputs == [] then []
    else
      assert outputs == outputs[..|outputs| - 1] + [outputs[|outputs| - 1]];
      AllDisclosures(outputs[..|outputs| - 1]) + OutputDisclosures(outputs[|outputs| - 1])
  }

  method RequiredBasisDisclosures(outputs: seq<Output>) returns (disclosures: seq<string>)
    ensures disclosures == Dedupe(AllDisclosures(outputs))
  {
    disclosures := [];
    for i := 0 to |outputs|
      invariant disclosures == AllDisclosures(outputs[..i])
    {
      assert outputs[..i + 1][..i] == outputs[..i];
      var data := DataOf(outputs[i].value);
      if data.None? {
        continue;
      }
      if "price_basis" in data.value {
        var basis := data.value["price_basis"];
        if basis.Str? && basis.s != "" {
          disclosures := disclosures + [basis.s];
        }
      }
      if "corporate_action_overlap" in data.value && data.value["corporate_action_overlap"] == Bool(true) {
        disclosures := disclosures + [CORPORATE_ACTION];
      }
    }
    assert outputs[..|outputs|] == outputs;
    disclosures := Dedupe(disclosures);
  }

  // ---------------------------------------------------------------------------
  // Validation
  // ---------------------------------------------------------------------------

  function Flatten(lists: seq<seq<string>>): (r: seq<string>)
    ensures forall x :: x in r <==> exists l :: l in lists && x in l
  {
    if lists == [] then [] else lists[0] + Flatten(lists[1..])
  }

  function UnsupportedAmong(valid: set<string>, a: Answer): (r: seq<string>)
    ensures forall x :: x in r <==> x in a.groundedSourceRefs + Flatten(a.claimSourceRefs) && x !in valid
  {
    Filter(Dedupe(Dedupe(a.groundedSourceRefs) + Dedupe(Flatten(a.claimSourceRefs))), ref => ref !in valid)
  }

  function UnsupportedRefs(w: Wording, a: Answer, plan: Plan, outputs: seq<Output>): seq<string> {
    UnsupportedAmong(PlanRefs(plan.steps) + AllOutputRefs(w, outputs), a)
  }

  function DisclosedText(fold: char -> string, a: Answer): string {
    Lower(fold, Join(" ", [a.summary, a.basis, a.risksCaveats] + a.missingData))
  }

  /** The item appears in the text, case aside. */
  predicate Discloses(fold: char -> string, text: string, item: string) {
    Contains(text, Lower(fold, item))
  }

  /** The basis appears in the text, case and hyphens aside. */
  predicate DisclosesBasis(fold: char -> string, spaced: string, item: string) {
    Contains(spaced, Spaced(Lower(fold, item)))
  }

  function MissingIn(fold: char -> string, text: string, items: seq<string>): (r: seq<string>)
    ensures forall x :: x in r <==> x in items && !Discloses(fold, text, x)
  {
    Filter(items, item => !Discloses(fold, text, item))
  }

  function BasisMissingIn(fold: char -> string, spaced: string, items: seq<string>): (r: seq<string>)
    ensures forall x :: x in r <==> x in items && !DisclosesBasis(fold, spaced, x)
  {
    Filter(items, item => !DisclosesBasis(fold, spaced, item))
  }

  function UndisclosedMissing(r: Reading, a: Answer, outputs: seq<Output>): seq<string> {
    MissingIn(r.fold, DisclosedText(r.fold, a), Dedupe(AllMissing(r.wording, outputs)))
  }

  function UndisclosedBasis(r: Reading, a: Answer, outputs: seq<Output>): seq<string> {
    BasisMissingIn(r.fold, Spaced(DisclosedText(r.fold, a)), Dedupe(AllDisclosures(outputs)))
  }

  /** Anything but an undisclosed missing artifact fails outright. */
  function Verdict(a: Answer, refs: seq<string>, numbers: seq<string>, missing: seq<string>,
                   basis: seq<string>): Status {
    if refs != [] || numbers != [] || a.groundedSourceRefs == [] || Blank(a.basis) || Blank(a.risksCaveats)
      || basis != []
    then Fail
    else if missing != [] then Partial
    else Pass
  }

  function Validated(r: Reading, a: Answer, plan: Plan, outputs: seq<Output>): GroundednessResult {
    var refs := UnsupportedRefs(r.wording, a, plan, outputs);
    var numbers := r.unsupportedNumbers(a, outputs);
    var missing := UndisclosedMissing(r, a, outputs);
    GroundednessResult(Verdict(a, refs, numbers, missing, UndisclosedBasis(r, a, outputs)), refs, numbers, missing)
  }

  method Validate(r: Reading, a: Answer, plan: Plan, outputs: seq<Output>) returns (result: GroundednessResult)
    ensures result == Validated(r, a, plan, outputs)
  {
    var valid := ValidSourceRefs(r.wording, plan, outputs);
    var unsupportedRefs := UnsupportedAmong(valid, a);
    var unsupportedNumbers := r.unsupportedNumbers(a, outputs);
    var required := MissingData(r.wording, outputs);
    var text := DisclosedText(r.fold, a);
    var undisclosedMissing := MissingIn(r.fold, text, required);
    var disclosures := RequiredBasisDisclosures(outputs);
    var undisclosedBasis := BasisMissingIn(r.fold, Spaced(text), disclosures);
    var hardFail := unsupportedRefs != [] || unsupportedNumbers != [] || a.groundedSourceRefs == []
      || Blank(a.basis) || Blank(a.risksCaveats) || undisclosedBasis != [];
    var status := if hardFail then Fail else if undisclosedMissing != [] then Partial else Pass;
    result := GroundednessResult(status, unsupportedRefs, unsupportedNumbers, undisclosedMissing);
  }

  // ---------------------------------------------------------------------------
  // What passing means
  // ---------------------------------------------------------------------------

  lemma SomeMember(s: seq<string>)
    ensures s != [] ==> exists x :: x in s
  {
    if s != [] {
      assert s[0] in s;
    }
  }

  /** References whose every member is valid. */
  ghost predicate OnlyValidRefs(w: Wording, plan: Plan, outputs: seq<Output>, refs: seq<string>) {
    forall x :: x in refs ==> x in PlanRefs(plan.steps) + AllOutputRefs(w, outputs)
  }

  lemma SupportedIffValid(w: Wording, plan: Plan, outputs: seq<Output>, a: Answer)
    ensures UnsupportedRefs(w, a, plan, outputs) == []
      <==> OnlyValidRefs(w, plan, outputs, a.groundedSourceRefs + Flatten(a.claimSourceRefs))
  {
    SomeMember(UnsupportedRefs(w, a, plan, outputs));
    assert forall x :: x in UnsupportedRefs(w, a, plan, outputs) ==>
      x in a.groundedSourceRefs + Flatten(a.claimSourceRefs);
  }

  lemma ValidRefsAreSupported(w: Wording, plan: Plan, outputs: seq<Output>, a: Answer)
    requires OnlyValidRefs(w, plan, outputs, a.groundedSourceRefs) && a.claimSourceRefs == []
    ensures UnsupportedRefs(w, a, plan, outputs) == []
  {
    assert Flatten(a.claimSourceRefs) == [];
    assert a.groundedSourceRefs + [] == a.groundedSourceRefs;
    SupportedIffValid(w, plan, outputs, a);
  }

  /** The answer's text mentions every missing artifact, price basis and corporate action the outputs report. */
  ghost predicate DisclosesAll(r: Reading, outputs: seq<Output>, a: Answer) {
    && (forall x :: x in AllMissing(r.wording, outputs) ==> Discloses(r.fold, DisclosedText(r.fold, a), x))
    && (forall x :: x in AllDisclosures(outputs) ==> DisclosesBasis(r.fold, Spaced(DisclosedText(r.fold, a)), x))
  }

  /** What the validator vouches for. */
  ghost predicate IsGrounded(r: Reading, plan: Plan, outputs: seq<Output>, a: Answer) {
    && a.groundedSourceRefs != []
    && OnlyValidRefs(r.wording, plan, outputs, a.groundedSourceRefs + Flatten(a.claimSourceRefs))
    && r.unsupportedNumbers(a, outputs) == []
    && DisclosesAll(r, outputs, a)
    && !Blank(a.basis) && !Blank(a.risksCaveats)
  }

  lemma DisclosedIffNoneMissing(r: Reading, outputs: seq<Output>, a: Answer)
    ensures DisclosesAll(r, outputs, a) <==>
      UndisclosedMissing(r, a, outputs) == [] && UndisclosedBasis(r, a, outputs) == []
  {
    SomeMember(UndisclosedMissing(r, a, outputs));
    SomeMember(UndisclosedBasis(r, a, outputs));
  }

  /** PASS is given to exactly the grounded answers; PARTIAL only for an undisclosed missing artifact. */
  lemma PassesIffGrounded(r: Reading, plan: Plan, outputs: seq<Output>, a: Answer)
    ensures Validated(r, a, plan, outputs).status.Pass? <==> IsGrounded(r, plan, outputs, a)
    ensures Validated(r, a, plan, outputs).status.Partial? ==>
      exists x :: x in AllMissing(r.wording, outputs) && !Discloses(r.fold, DisclosedText(r.fold, a), x)
  {
    SupportedIffValid(r.wording, plan, outputs, a);
    DisclosedIffNoneMissing(r, outputs, a);
    SomeMember(UndisclosedMissing(r, a, outputs));
  }

  // ---------------------------------------------------------------------------
  // Deterministic answers close the validator's vocabulary
  // ---------------------------------------------------------------------------

  /** The outputs are a dictionary: one entry for each key. */
  ghost predicate DistinctIds(outputs: seq<Output>) {
    forall i, j :: 0 <= i < j < |outputs| ==> outputs[i].stepId != outputs[j].stepId
  }

  /** Every output belongs to a step of the plan. */
  ghost predicate KeyedBySteps(plan: Plan, outputs: seq<Output>) {
    DistinctIds(outputs) && forall o :: o in outputs ==> exists s :: s in plan.steps && s.stepId == o.stepId
  }

  lemma {:induction false} FindOnlyEntry(outputs: seq<Output>, o: Output)
    requires DistinctIds(outputs) && o in outputs
    ensures Find(outputs, o.stepId) == Some(o.value)
    decreases |outputs|
  {
    assert outputs == [outputs[0]] + outputs[1..];
    if outputs[0] != o {
      var i :| 0 <= i < |outputs| && outputs[i] == o;
      assert outputs[0].stepId != outputs[i].stepId;
      FindOnlyEntry(outputs[1..], o);
    }
  }

  /** The builder reads every payload the validator reads. */
  lemma PayloadIsRead(plan: Plan, outputs: seq<Output>, o: Output)
    requires KeyedBySteps(plan, outputs) && o in outputs && DataOf(o.value).Some?
    ensures DataOf(o.value).value in Payloads(plan.steps, outputs)
  {
    FindOnlyEntry(outputs, o);
    var s :| s in plan.steps && s.stepId == o.stepId;
    assert PayloadOf(outputs, s.stepId) == DataOf(o.value);
  }

  lemma StepRefsAreValid(w: Wording, plan: Plan, outputs: seq<Output>)
    ensures OnlyValidRefs(w, plan, outputs, StepRefs(plan.steps))
  {
    forall x | x in StepRefs(plan.steps)
      ensures x in PlanRefs(plan.steps)
    {
      var i :| 0 <= i < |plan.steps| && StepRef(plan.steps[i]) == x;
      assert plan.steps[i] in plan.steps;
    }
  }

  /** What a step's payload lists as artifacts is valid. */
  lemma ArtifactIsValid(w: Wording, plan: Plan, outputs: seq<Output>, s: Step, x: string)
    requires s in plan.steps && PayloadOf(outputs, s.stepId).Some?
    requires x in Listed(w, PayloadOf(outputs, s.stepId).value, "artifact_refs")
    ensures x in AllOutputRefs(w, outputs)
  {
    var o := Output(s.stepId, Find(outputs, s.stepId).value);
    assert o in outputs && x in OutputRefs(w, o);
  }

  /** No reference the builder cites is unsupported, whatever the outputs. */
  lemma BuiltRefsAreValid(w: Wording, plan: Plan, outputs: seq<Output>, reasons: seq<string>)
    ensures OnlyValidRefs(w, plan, outputs,
                          BuildDeterministicResearchAnswer(w, plan, outputs, reasons).groundedSourceRefs)
  {
    var payloads := Payloads(plan.steps, outputs);
    StepRefsAreValid(w, plan, outputs);
    forall x | x in AllListed(w, payloads, "artifact_refs")
      ensures x in AllOutputRefs(w, outputs)
    {
      var p :| p in payloads && x in Listed(w, p, "artifact_refs");
      var s :| s in plan.steps && PayloadOf(outputs, s.stepId) == Some(p);
      ArtifactIsValid(w, plan, outputs, s, x);
    }
  }

  lemma TextDiscloses(fold: char -> string, a: Answer, part: string, item: string)
    requires part in [a.summary, a.basis, a.risksCaveats] + a.missingData && Contains(part, item)
    ensures Discloses(fold, DisclosedText(fold, a), item)
    ensures DisclosesBasis(fold, Spaced(DisclosedText(fold, a)), item)
  {
    var text := Join(" ", [a.summary, a.basis, a.risksCaveats] + a.missingData);
    JoinContains(" ", [a.summary, a.basis, a.risksCaveats] + a.missingData, part);
    ContainsIsTransitive(text, part, item);
    FoldedContains(fold, text, item);
  }

  /** An answer that lists what the payloads miss discloses what the validator requires. */
  lemma MissingIsDisclosed(r: Reading, plan: Plan, outputs: seq<Output>, a: Answer)
    requires KeyedBySteps(plan, outputs)
    requires a.missingData == Dedupe(AllListed(r.wording, Payloads(plan.steps, outputs), "missing_data"))
    ensures UndisclosedMissing(r, a, outputs) == []
  {
    forall x | x in AllMissing(r.wording, outputs)
      ensures Discloses(r.fold, DisclosedText(r.fold, a), x)
    {
      var o :| o in outputs && x in OutputMissing(r.wording, o);
      PayloadIsRead(plan, outputs, o);
      assert x in AllListed(r.wording, Payloads(plan.steps, outputs), "missing_data");
      assert x in a.missingData;
      assert OccursAt(x, x, 0);
      TextDiscloses(r.fold, a, x, x);
    }
    SomeMember(UndisclosedMissing(r, a, outputs));
  }

  /** The basis line names every price basis it was given. */
  lemma BasisNames(w: Wording, plan: Plan, payloads: seq<Payload>, p: Payload)
    requires p in payloads && NamesBasis(p)
    ensures Contains(Basis(w, plan, payloads), p["price_basis"].s)
  {
    var name := p["price_basis"].s;
    var bases := Dedupe(PriceBases(w, payloads));
    assert Show(w, p["price_basis"]) == name;
    assert name in bases;
    JoinContains(", ", bases, name);
    var names := ToolNames(plan.steps);
    var tools := Headed("Deterministic tools", Join(", ", if names == [] then ["none"] else names));
    var before := tools + ("; " + ("Price basis" + ": "));
    assert Basis(w, plan, payloads) == before + Join(", ", bases) + "";
    ContainsMiddle(before, Join(", ", bases), "");
    ContainsIsTransitive(Basis(w, plan, payloads), Join(", ", bases), name);
  }

  lemma BasisLineDiscloses(fold: char -> string, a: Answer, item: string)
    requires Contains(a.basis, item)
    ensures DisclosesBasis(fold, Spaced(DisclosedText(fold, a)), item)
  {
    assert ([a.summary, a.basis, a.risksCaveats] + a.missingData)[1] == a.basis;
    TextDiscloses(fold, a, a.basis, item);
  }

  /** Where a required disclosure comes from. */
  lemma DisclosureOrigin(outputs: seq<Output>, d: string) returns (o: Output)
    requires d in AllDisclosures(outputs)
    ensures o in outputs && DataOf(o.value).Some?
    ensures var p := DataOf(o.value).value;
      (NamesBasis(p) && d == p["price_basis"].s) || (HasActionOverlap(p) && d == CORPORATE_ACTION)
  {
    o :| o in outputs && d in OutputDisclosures(o);
  }

  /** The only disclosure an answer with the built basis may omit is a reported corporate action. */
  lemma BasisIsDisclosed(r: Reading, plan: Plan, outputs: seq<Output>, a: Answer, d: string)
    requires KeyedBySteps(plan, outputs) && d in AllDisclosures(outputs)
    requires Contains(a.basis, Basis(r.wording, plan, Payloads(plan.steps, outputs)))
    ensures (d == CORPORATE_ACTION && ReportsOverlap(outputs))
      || DisclosesBasis(r.fold, Spaced(DisclosedText(r.fold, a)), d)
  {
    var o := DisclosureOrigin(outputs, d);
    PayloadIsRead(plan, outputs, o);
    var p := DataOf(o.value).value;
    if NamesBasis(p) && d == p["price_basis"].s {
      var line := Basis(r.wording, plan, Payloads(plan.steps, outputs));
      BasisNames(r.wording, plan, Payloads(plan.steps, outputs), p);
      ContainsIsTransitive(a.basis, line, d);
      BasisLineDiscloses(r.fold, a, d);
    }
  }

  lemma ContainsIsNotBlank(text: string, part: string)
    requires Contains(text, part) && !Blank(part)
    ensures !Blank(text)
  {
    var i: nat :| i <= |text| && OccursAt(text, part, i);
    var j :| 0 <= j < |part| && !IsSpace(part[j]);
    assert text[i..i + |part|][j] == text[i + j];
  }

  lemma CaveatKeepsRisksNonBlank(before: seq<string>)
    ensures !Blank(Join(" ", Dedupe(NonEmpty(before + [RESEARCH_ONLY_CAVEAT]))))
  {
    var caveat := RESEARCH_ONLY_CAVEAT;
    assert caveat[0] == 'R';
    var parts := before + [caveat];
    assert parts[|before|] == caveat;
    assert caveat in Dedupe(NonEmpty(parts));
    JoinContains(" ", Dedupe(NonEmpty(parts)), caveat);
    ContainsIsNotBlank(Join(" ", Dedupe(NonEmpty(parts))), caveat);
  }

  lemma HeadingIsNotBlank(rest: string)
    ensures !Blank(Headed("Deterministic tools", rest))
  {
    assert Headed("Deterministic tools", rest)[0] == 'D';
  }

  lemma BasisIsNotBlank(w: Wording, plan: Plan, payloads: seq<Payload>)
    ensures !Blank(Basis(w, plan, payloads))
  {
    assert Basis(w, plan, payloads)[0] == 'D';
  }

  lemma StepsAreCited(steps: seq<Step>, artifacts: seq<string>)
    requires steps != []
    ensures Dedupe(StepRefs(steps) + artifacts) != []
  {
    assert (StepRefs(steps) + artifacts)[0] in Dedupe(StepRefs(steps) + artifacts);
  }

  /** Some payload reports a corporate action that overlaps the analysis window. */
  ghost predicate ReportsOverlap(outputs: seq<Output>) {
    exists o :: o in outputs && DataOf(o.value).Some? && HasActionOverlap(DataOf(o.value).value)
  }

  /** What the deterministic builders have in common. */
  ghost predicate ClosesVocabulary(w: Wording, plan: Plan, outputs: seq<Output>, a: Answer) {
    && a.claimSourceRefs == []
    && OnlyValidRefs(w, plan, outputs, a.groundedSourceRefs)
    && (a.groundedSourceRefs == [] <==> plan.steps == [])
    && a.missingData == Dedupe(AllListed(w, Payloads(plan.steps, outputs), "missing_data"))
    && Contains(a.basis, Basis(w, plan, Payloads(plan.steps, outputs)))
    && !Blank(a.risksCaveats)
  }

  ghost predicate OverlapIsDisclosed(r: Reading, outputs: seq<Output>, a: Answer) {
    ReportsOverlap(outputs) ==> DisclosesBasis(r.fold, Spaced(DisclosedText(r.fold, a)), CORPORATE_ACTION)
  }

  /**
   * Such an answer cites no unsupported reference, hides no missing artifact and no price basis. It passes exactly
   * when there was a step, its numbers are supported, and a reported corporate action is mentioned in its text.
   */
  lemma ClosedAnswerPassesIff(r: Reading, plan: Plan, outputs: seq<Output>, a: Answer)
    requires KeyedBySteps(plan, outputs) && ClosesVocabulary(r.wording, plan, outputs, a)
    ensures
      var v := Validated(r, a, plan, outputs);
      && v.unsupportedSourceRefs == [] && v.undisclosedMissingData == []
      && (forall d :: d in UndisclosedBasis(r, a, outputs) ==> d == CORPORATE_ACTION)
      && (v.status == if plan.steps != [] && v.unsupportedNumericClaims == [] && OverlapIsDisclosed(r, outputs, a)
                      then Pass else Fail)
  {
    ValidRefsAreSupported(r.wording, plan, outputs, a);
    MissingIsDisclosed(r, plan, outputs, a);
    BasisIsNotBlank(r.wording, plan, Payloads(plan.steps, outputs));
    ContainsIsNotBlank(a.basis, Basis(r.wording, plan, Payloads(plan.steps, outputs)));
    forall d | d in UndisclosedBasis(r, a, outputs)
      ensures d == CORPORATE_ACTION && ReportsOverlap(outputs)
    {
      BasisIsDisclosed(r, plan, outputs, a, d);
    }
    OverlapIsRequired(outputs);
    SomeMember(UndisclosedBasis(r, a, outputs));
  }

  lemma BuiltRisksAreNotBlank(w: Wording, plan: Plan, outputs: seq<Output>, reasons: seq<string>)
    ensures !Blank(BuildDeterministicResearchAnswer(w, plan, outputs, reasons).risksCaveats)
  {
    CaveatKeepsRisksNonBlank(Dedupe(AllListed(w, Payloads(plan.steps, outputs), "caveats")) + reasons);
  }

  lemma BuiltRefsExist(w: Wording, plan: Plan, outputs: seq<Output>, reasons: seq<string>)
    ensures BuildDeterministicResearchAnswer(w, plan, outputs, reasons).groundedSourceRefs == [] <==> plan.steps == []
  {
    if plan.steps != [] {
      StepsAreCited(plan.steps, Dedupe(AllListed(w, Payloads(plan.steps, outputs), "artifact_refs")));
    }
  }

  lemma BuiltAnswerCloses(w: Wording, plan: Plan, outputs: seq<Output>, reasons: seq<string>)
    ensures ClosesVocabulary(w, plan, outputs, BuildDeterministicResearchAnswer(w, plan, outputs, reasons))
  {
    var a := BuildDeterministicResearchAnswer(w, plan, outputs, reasons);
    BuiltRefsAreValid(w, plan, outputs, reasons);
    BuiltRisksAreNotBlank(w, plan, outputs, reasons);
    BuiltRefsExist(w, plan, outputs, reasons);
    assert OccursAt(a.basis, a.basis, 0);
  }

  lemma OverlapIsRequired(outputs: seq<Output>)
    ensures ReportsOverlap(outputs) ==> CORPORATE_ACTION in Dedupe(AllDisclosures(outputs))
  {
    if ReportsOverlap(outputs) {
      var o :| o in outputs && DataOf(o.value).Some? && HasActionOverlap(DataOf(o.value).value);
      assert CORPORATE_ACTION in OutputDisclosures(o);
    }
  }

  // ---------------------------------------------------------------------------
  // The requirements, read off the outputs
  // ---------------------------------------------------------------------------

  /** The payload of an output: its `data` if it has one, else the output itself. */
  predicate Carries(output: Value, p: Payload) {
    && output.Dict?
    && if "data" in output.fields then output.fields["data"] == Dict(p) else output.fields == p
  }

  /** What Python takes for false. */
  predicate IsNothing(v: Value) {
    v == Null || v == Bool(false) || v == Num(0.0) || v == Str("") || v == List([]) || v == Dict(map[])
  }

  /** A payload lists `x` under `field`, as the text of an item that is neither empty nor zero nor false. */
  ghost predicate Lists(w: Wording, p: Payload, field: string, x: string) {
    && field in p && p[field].List?
    && exists item :: item in p[field].items && !IsNothing(item) && x == (if item.Str? then item.s else w.render(item))
  }

  lemma CarriesIff(output: Value, p: Payload)
    ensures Carries(output, p) <==> DataOf(output) == Some(p)
  {
  }

  lemma ListsIff(w: Wording, p: Payload, field: string, x: string)
    ensures Lists(w, p, field, x) <==> x in Listed(w, p, field)
  {
    if Lists(w, p, field, x) {
      var item :| item in p[field].items && !IsNothing(item) && x == (if item.Str? then item.s else w.render(item));
      assert Show(w, item) == x;
    }
    if x in Listed(w, p, field) {
      var item :| item in p[field].items && Truthy(item) && Show(w, item) == x;
    }
  }

  /** An artifact must be mentioned exactly when some output's payload lists it as missing. */
  lemma MissingIsRequiredIff(w: Wording, outputs: seq<Output>, x: string)
    ensures x in AllMissing(w, outputs) <==>
      exists o, p :: o in outputs && Carries(o.value, p) && Lists(w, p, "missing_data", x)
  {
    if x in AllMissing(w, outputs) {
      var o :| o in outputs && x in OutputMissing(w, o);
      var p := DataOf(o.value).value;
      CarriesIff(o.value, p);
      ListsIff(w, p, "missing_data", x);
    }
    if exists o, p :: o in outputs && Carries(o.value, p) && Lists(w, p, "missing_data", x) {
      var o, p :| o in outputs && Carries(o.value, p) && Lists(w, p, "missing_data", x);
      CarriesIff(o.value, p);
      ListsIff(w, p, "missing_data", x);
      assert x in OutputMissing(w, o);
    }
  }

  /** What a payload requires to be disclosed: the price basis it names, and a corporate action it reports. */
  predicate CallsFor(p: Payload, d: string) {
    || ("price_basis" in p && p["price_basis"] == Str(d) && d != "")
    || (d == "corporate action" && "corporate_action_overlap" in p && p["corporate_action_overlap"] == Bool(true))
  }

  lemma OutputCallsFor(o: Output, d: string)
    ensures d in OutputDisclosures(o) <==> DataOf(o.value).Some? && CallsFor(DataOf(o.value).value, d)
  {
  }

  lemma DisclosureIsRequiredIff(outputs: seq<Output>, d: string)
    ensures d in AllDisclosures(outputs) <==> exists o, p :: o in outputs && Carries(o.value, p) && CallsFor(p, d)
  {
    if d in AllDisclosures(outputs) {
      var o :| o in outputs && d in OutputDisclosures(o);
      OutputCallsFor(o, d);
      CarriesIff(o.value, DataOf(o.value).value);
    }
    if exists o, p :: o in outputs && Carries(o.value, p) && CallsFor(p, d) {
      var o, p :| o in outputs && Carries(o.value, p) && CallsFor(p, d);
      CarriesIff(o.value, p);
      OutputCallsFor(o, d);
    }
  }

  /** A step may be cited by its trace reference, its tool or its id. */
  predicate NamesStep(s: Step, x: string) {
    x == "tool:" + s.toolName + ":" + s.stepId || x == s.toolName || x == s.stepId
  }

  /** What may be cited: a step of the plan, the id of an output, and an artifact an output's payload lists. */
  lemma ReferenceIsValidIff(w: Wording, plan: Plan, outputs: seq<Output>, x: string)
    ensures x in PlanRefs(plan.steps) + AllOutputRefs(w, outputs) <==>
      || (exists s :: s in plan.steps && NamesStep(s, x))
      || (exists o :: o in outputs && o.stepId == x)
      || (exists o, p :: o in outputs && Carries(o.value, p) && Lists(w, p, "artifact_refs", x))
  {
    if x in AllOutputRefs(w, outputs) {
      var o :| o in outputs && x in OutputRefs(w, o);
      if o.stepId != x {
        var p := DataOf(o.value).value;
        CarriesIff(o.value, p);
        ListsIff(w, p, "artifact_refs", x);
      }
    }
    if exists o :: o in outputs && o.stepId == x {
      var o :| o in outputs && o.stepId == x;
      assert x in OutputRefs(w, o);
    }
    if exists o, p :: o in outputs && Carries(o.value, p) && Lists(w, p, "artifact_refs", x) {
      var o, p :| o in outputs && Carries(o.value, p) && Lists(w, p, "artifact_refs", x);
      CarriesIff(o.value, p);
      ListsIff(w, p, "artifact_refs", x);
      assert x in OutputRefs(w, o);
    }
    PlanRefsNameSteps(plan.steps, x);
  }

  lemma PlanRefsNameSteps(steps: seq<Step>, x: string)
    ensures x in PlanRefs(steps) <==> exists s :: s in steps && NamesStep(s, x)
  {
  }

  // ---------------------------------------------------------------------------
  // What the deterministic answer says
  // ---------------------------------------------------------------------------

  lemma TextAround(before: string, part: string, after: string, inner: string)
    requires Contains(part, inner)
    ensures Contains(before + part + after, inner)
  {
    ContainsMiddle(before, part, after);
    ContainsIsTransitive(before + part + after, part, inner);
  }

  lemma SummarySays(w: Wording, plan: Plan, payloads: seq<Payload>, missing: seq<string>, caveats: seq<string>)
    ensures var summary := Summary(w, plan, payloads, missing, caveats);
      && EndsIn(summary, w.summarize(plan.intent, payloads))
      && (missing != [] ==> Headed("Caveat", "missing persisted artifacts") <= summary)
      && (forall x :: x in missing ==> Contains(summary, x))
      && (missing == [] && plan.intent in {"review_market_regime", "review_sector_strength"} && caveats != [] ==>
            Headed("Caveat", "persisted context") <= summary)
      && (missing == [] && (plan.intent !in {"review_market_regime", "review_sector_strength"} || caveats == []) ==>
            summary == w.summarize(plan.intent, payloads))
  {
    var sentence := w.summarize(plan.intent, payloads);
    var summary := Summary(w, plan, payloads, missing, caveats);
    if missing != [] {
      var head := Headed("Caveat", "missing persisted artifacts") + ": ";
      assert summary == head + Join(", ", missing) + (". " + sentence);
      assert summary == (head + Join(", ", missing) + ". ") + sentence;
      forall x | x in missing
        ensures Contains(summary, x)
      {
        JoinContains(", ", missing, x);
        TextAround(head, Join(", ", missing), ". " + sentence, x);
      }
    } else if plan.intent in CAVEAT_FIRST_INTENTS && caveats != [] {
      assert summary == Headed("Caveat", "persisted context includes " + "limitations" + ". ") + sentence;
    }
  }

  predicate EndsIn(s: string, end: string) {
    |end| <= |s| && s[|s| - |end|..] == end
  }

  lemma {:induction false} ToolNamesAre(steps: seq<Step>, x: string)
    ensures x in ToolNames(steps) <==> exists s :: s in steps && s.toolName == x
  {
    if steps != [] {
      ToolNamesAre(steps[1..], x);
      assert steps == [steps[0]] + steps[1..];
    }
  }

  /** The basis line names every tool of the plan. */
  lemma BasisNamesTools(w: Wording, plan: Plan, payloads: seq<Payload>, s: Step)
    requires s in plan.steps
    ensures Contains(Basis(w, plan, payloads), s.toolName)
  {
    var names, bases := ToolNames(plan.steps), Dedupe(PriceBases(w, payloads));
    ToolNamesAre(plan.steps, s.toolName);
    JoinContains(", ", names, s.toolName);
    var head := "Deterministic tools" + ": ";
    var rest := if bases == [] then "" else "; " + Headed("Price basis", Join(", ", bases));
    assert Basis(w, plan, payloads) == head + Join(", ", names) + rest;
    TextAround(head, Join(", ", names), rest, s.toolName);
  }

  /** The risks say every caveat of the payloads, every reason, and that the answer is research only. */
  lemma RisksSay(w: Wording, plan: Plan, outputs: seq<Output>, reasons: seq<string>, x: string)
    requires x != ""
    requires x in AllListed(w, Payloads(plan.steps, outputs), "caveats") || x in reasons || x == RESEARCH_ONLY_CAVEAT
    ensures Contains(BuildDeterministicResearchAnswer(w, plan, outputs, reasons).risksCaveats, x)
  {
    var caveats := Dedupe(AllListed(w, Payloads(plan.steps, outputs), "caveats"));
    var parts := caveats + reasons + [RESEARCH_ONLY_CAVEAT];
    assert x in parts;
    assert x in Dedupe(NonEmpty(parts));
    JoinContains(" ", Dedupe(NonEmpty(parts)), x);
  }

  /** It cites every step and every artifact the steps' payloads list, and nothing else. */
  lemma BuiltRefsAre(w: Wording, plan: Plan, outputs: seq<Output>, reasons: seq<string>, x: string)
    ensures x in BuildDeterministicResearchAnswer(w, plan, outputs, reasons).groundedSourceRefs <==>
      || (exists s :: s in plan.steps && x == "tool:" + s.toolName + ":" + s.stepId)
      || (exists p :: p in Payloads(plan.steps, outputs) && Lists(w, p, "artifact_refs", x))
  {
    StepRefsAre(plan.steps, x);
    var payloads := Payloads(plan.steps, outputs);
    if exists p :: p in payloads && Lists(w, p, "artifact_refs", x) {
      var p :| p in payloads && Lists(w, p, "artifact_refs", x);
      ListsIff(w, p, "artifact_refs", x);
      assert x in AllListed(w, payloads, "artifact_refs");
    }
    if x in AllListed(w, payloads, "artifact_refs") {
      var p :| p in payloads && x in Listed(w, p, "artifact_refs");
      ListsIff(w, p, "artifact_refs", x);
    }
  }

  lemma StepRefsAre(steps: seq<Step>, x: string)
    ensures x in StepRefs(steps) <==> exists s :: s in steps && x == "tool:" + s.toolName + ":" + s.stepId
  {
    if exists s :: s in steps && x == "tool:" + s.toolName + ":" + s.stepId {
      var s :| s in steps && x == "tool:" + s.toolName + ":" + s.stepId;
      var i :| 0 <= i < |steps| && steps[i] == s;
      assert StepRefs(steps)[i] == x;
    }
  }

  /** The payloads it is built from are those of the plan's steps, in the order of the plan. */
  lemma PayloadsAre(steps: seq<Step>, outputs: seq<Output>, p: Payload)
    ensures p in Payloads(steps, outputs) <==>
      exists s :: s in steps && Find(outputs, s.stepId).Some? && Carries(Find(outputs, s.stepId).value, p)
  {
    if p in Payloads(steps, outputs) {
      var s :| s in steps && PayloadOf(outputs, s.stepId) == Some(p);
      CarriesIff(Find(outputs, s.stepId).value, p);
    }
    if exists s :: s in steps && Find(outputs, s.stepId).Some? && Carries(Find(outputs, s.stepId).value, p) {
      var s :| s in steps && Find(outputs, s.stepId).Some? && Carries(Find(outputs, s.stepId).value, p);
      CarriesIff(Find(outputs, s.stepId).value, p);
    }
  }

  lemma AllMissingOneMore(w: Wording, s: seq<Output>, o: Output)
    ensures AllMissing(w, s + [o]) == AllMissing(w, s) + OutputMissing(w, o)
  {
    assert (s + [o])[..|s|] == s;
  }

  lemma {:induction false} AllMissingOfConcat(w: Wording, a: seq<Output>, b: seq<Output>)
    ensures AllMissing(w, a + b) == AllMissing(w, a) + AllMissing(w, b)
    decreases |b|
  {
    if b == [] {
      assert a + b == a;
    } else {
      var before, last := b[..|b| - 1], b[|b| - 1];
      assert b == before + [last];
      ConcatIsAssociative(a, before, [last]);
      AllMissingOfConcat(w, a, before);
      AllMissingOneMore(w, a + before, last);
      AllMissingOneMore(w, before, last);
      ConcatIsAssociative(AllMissing(w, a), AllMissing(w, before), OutputMissing(w, last));
    }
  }

  lemma AllDisclosuresOneMore(s: seq<Output>, o: Output)
    ensures AllDisclosures(s + [o]) == AllDisclosures(s) + OutputDisclosures(o)
  {
    assert (s + [o])[..|s|] == s;
  }

  lemma {:induction false} AllDisclosuresOfConcat(a: seq<Output>, b: seq<Output>)
    ensures AllDisclosures(a + b) == AllDisclosures(a) + AllDisclosures(b)
    decreases |b|
  {
    if b == [] {
      assert a + b == a;
    } else {
      var before, last := b[..|b| - 1], b[|b| - 1];
      assert b == before + [last];
      ConcatIsAssociative(a, before, [last]);
      AllDisclosuresOfConcat(a, before);
      AllDisclosuresOneMore(a + before, last);
      AllDisclosuresOneMore(before, last);
      ConcatIsAssociative(AllDisclosures(a), AllDisclosures(before), OutputDisclosures(last));
    }
  }

  /** What the first outputs require comes before what the others require. */
  lemma EarlierOutputsComeFirst(w: Wording, a: seq<Output>, b: seq<Output>)
    ensures Dedupe(AllMissing(w, a)) <= Dedupe(AllMissing(w, a + b))
    ensures Dedupe(AllDisclosures(a)) <= Dedupe(AllDisclosures(a + b))
  {
    AllMissingOfConcat(w, a, b);
    AllDisclosuresOfConcat(a, b);
    DedupeOfPrefix(AllMissing(w, a), AllMissing(w, b));
    DedupeOfPrefix(AllDisclosures(a), AllDisclosures(b));
  }
}
