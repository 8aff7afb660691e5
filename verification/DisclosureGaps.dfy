/** Tool outputs whose deterministic answers fail their own validator. */
module DisclosureGaps {
  import opened Common
  import opened ResearchTemplates
  import opened Groundedness
  import opened DegradedAnswer
  import opened ActionDisclosure

  // ---------------------------------------------------------------------------
  // A corporate action nobody mentions
  // ---------------------------------------------------------------------------

  const BASIS_CAVEAT: string := "Canonical OHLCV basis is missing " + "or is not verified RAW_UNADJUSTED."

  /**
   * What `analysis.deep_symbol` reports when the price basis is unverified and a corporate action overlaps: only a
   * verified basis gets the caveat that mentions the action.
   */
  function DeepPayload(): Payload {
    map["price_basis" := Null, "corporate_action_overlap" := Bool(true),
        "missing_data" := List([Str("canonical_ohlcv_basis")]), "caveats" := List([Str(BASIS_CAVEAT)])]
  }

  function DeepPlan(): Plan {
    Plan("deep_analyze_symbol", [Step("s1", "analysis.deep_symbol")], false)
  }

  function DeepOutputs(): seq<Output> {
    [Output("s1", Dict(map["data" := Dict(DeepPayload())]))]
  }

  function SomeReading(summary: string): Reading {
    Reading(Wording((v: Value) => "", (intent: string, payloads: seq<Payload>) => summary),
            (c: char) => [AsciiLower(c)],
            (a: Answer, o: seq<Output>) => [])
  }

  lemma OneItem(w: Wording, payload: Payload, field: string, item: string)
    requires field in payload && payload[field] == List([Str(item)]) && item != ""
    ensures AllListed(w, [payload], field) == [item] == Dedupe(AllListed(w, [payload], field))
  {
    assert Shown(w, [Str(item)]) == [item] by { assert [Str(item)][1..] == []; }
    assert [payload][..0] == [] && AllListed(w, [], field) == [];
    assert AllListed(w, [payload], field) == [item];
    assert [item][..0] == [] && Dedupe([]) == [];
  }

  lemma DeepPayloads()
    ensures Payloads(DeepPlan().steps, DeepOutputs()) == [DeepPayload()]
  {
    var steps := DeepPlan().steps;
    assert steps[..0] == [] && Payloads([], DeepOutputs()) == [];
    assert PayloadOf(DeepOutputs(), "s1") == Some(DeepPayload());
  }

  lemma DeepRisks(w: Wording)
    ensures RiskParts(w, [DeepPayload()], []) == [BASIS_CAVEAT, RESEARCH_ONLY_CAVEAT]
  {
    OneItem(w, DeepPayload(), "caveats", BASIS_CAVEAT);
    assert BASIS_CAVEAT[0] == 'C' && RESEARCH_ONLY_CAVEAT[0] == 'R';
    TwoDistinct(BASIS_CAVEAT, RESEARCH_ONLY_CAVEAT);
    assert [BASIS_CAVEAT] + [] + [RESEARCH_ONLY_CAVEAT] == [BASIS_CAVEAT, RESEARCH_ONLY_CAVEAT];
  }

  lemma TwoDistinct(x: string, y: string)
    requires x != "" && y != "" && x != y
    ensures Dedupe(NonEmpty([x, y])) == [x, y]
  {
    assert [x, y][1..] == [y] && [y][1..] == [] && NonEmpty([y]) == [y];
    assert NonEmpty([x, y]) == [x, y];
    assert [x, y][..1] == [x] && [x][..0] == [] && Dedupe([x]) == [x];
  }

  lemma DeepTextsAreFree()
    ensures IsFree("FPT: score=None.", 'a') && IsFree("analysis.deep_symbol", 'c')
    ensures IsFree("canonical_ohlcv_basis", 'p')
  {
  }

  lemma CaveatIsFree()
    ensures IsFree("Canonical OHLCV basis is missing ", 'p') && IsFree("or is not verified RAW_UNADJUSTED.", 'p')
  {
  }

  /** What the basis line names of the payload and of the plan. */
  lemma DeepNames(w: Wording)
    ensures BasisNamesOf(w, DeepPlan(), [DeepPayload()], []) == ["analysis.deep_symbol"]
  {
    assert [DeepPayload()][1..] == [] && PriceBases(w, [DeepPayload()]) == [];
    assert DeepPlan().steps[1..] == [] && ToolNames(DeepPlan().steps) == ["analysis.deep_symbol"];
  }

  lemma OneSilent(fold: Lowering, x: string, c: char)
    requires c in CORPORATE_ACTION && c != ' ' && IsFree(x, c)
    ensures !SomeNaming(fold, [x]) && !SomeNaming(fold, [x] + [])
  {
    LetterMissing(fold, x, c);
    SomeNames(fold, [x], []);
    assert [x] + [] == [x];
  }

  lemma DeepTextsAreSilent(fold: Lowering)
    ensures !Names(fold, "FPT: score=None.") && !SomeNaming(fold, ["analysis.deep_symbol"])
    ensures !SomeNaming(fold, ["canonical_ohlcv_basis"]) && !SomeNaming(fold, [BASIS_CAVEAT] + [])
  {
    DeepTextsAreFree();
    CaveatIsFree();
    LetterMissing(fold, "FPT: score=None.", 'a');
    OneSilent(fold, "analysis.deep_symbol", 'c');
    OneSilent(fold, "canonical_ohlcv_basis", 'p');
    OneSilent(fold, BASIS_CAVEAT, 'p');
  }

  lemma NothingSaidNames(fold: Lowering, w: Wording)
    requires w.summarize("deep_analyze_symbol", [DeepPayload()]) == "FPT: score=None."
    ensures !SomeNaming(fold, Said(w, DeepPlan(), [DeepPayload()], [], []))
  {
    SaidNames(fold, w, DeepPlan(), [DeepPayload()], [], []);
    OneItem(w, DeepPayload(), "missing_data", "canonical_ohlcv_basis");
    OneItem(w, DeepPayload(), "caveats", BASIS_CAVEAT);
    DeepNames(w);
    DeepTextsAreSilent(fold);
  }

  lemma StartsOtherwise(fold: Lowering, line: string)
    requires line != "" && (line[0] == 'C' || line[0] == 'R' || line[0] == 'c')
    ensures !StartsWithSecondWord(Seen(fold, line))
  {
    assert line == [line[0]] + line[1..];
    SeenOfConcat(fold, [line[0]], line[1..]);
    SeenOfChar(fold, line[0]);
    assert CORPORATE_ACTION[GAP + 1..][0] == 'a';
  }

  lemma NothingStraddles(fold: Lowering, first: string, caveat: string, research: string, artifact: string)
    requires !StartsWithSecondWord(Seen(fold, caveat)) && !StartsWithSecondWord(Seen(fold, research))
    requires !StartsWithSecondWord(Seen(fold, artifact))
    ensures !Straddles(fold, [first, caveat, research, artifact])
  {
  }

  lemma FourLines(a: string, b: string, c: string, d: string)
    ensures [a] + [b, c] + [d] == [a, b, c, d]
  {
  }

  lemma DeepLines(w: Wording)
    ensures Lines(w, DeepPlan(), [DeepPayload()], [], [])
         == [BasisLine(w, DeepPlan(), [DeepPayload()], []), BASIS_CAVEAT, RESEARCH_ONLY_CAVEAT, "canonical_ohlcv_basis"]
  {
    DeepRisks(w);
    OneItem(w, DeepPayload(), "missing_data", "canonical_ohlcv_basis");
    FourLines(BasisLine(w, DeepPlan(), [DeepPayload()], []), BASIS_CAVEAT, RESEARCH_ONLY_CAVEAT,
              "canonical_ohlcv_basis");
  }

  lemma DeepLinesStartOtherwise(fold: Lowering)
    ensures !StartsWithSecondWord(Seen(fold, BASIS_CAVEAT)) && !StartsWithSecondWord(Seen(fold, RESEARCH_ONLY_CAVEAT))
    ensures !StartsWithSecondWord(Seen(fold, "canonical_ohlcv_basis"))
  {
    StartsOtherwise(fold, BASIS_CAVEAT);
    StartsOtherwise(fold, RESEARCH_ONLY_CAVEAT);
    StartsOtherwise(fold, "canonical_ohlcv_basis");
  }

  lemma ActionIsNotNamed(r: Reading)
    requires r.wording.summarize("deep_analyze_symbol", [DeepPayload()]) == "FPT: score=None."
    ensures !ActionIsNamed(r, DeepPlan(), DeepOutputs(), [], [])
  {
    DeepPayloads();
    NothingSaidNames(r.fold, r.wording);
    DeepLines(r.wording);
    DeepLinesStartOtherwise(r.fold);
    NothingStraddles(r.fold, BasisLine(r.wording, DeepPlan(), [DeepPayload()], []), BASIS_CAVEAT,
                     RESEARCH_ONLY_CAVEAT, "canonical_ohlcv_basis");
  }

  /** This output comes from the plan's step, and reports the action. */
  lemma DeepOutputIsKeyed()
    ensures KeyedBySteps(DeepPlan(), DeepOutputs()) && ReportsOverlap(DeepOutputs())
  {
    var o := DeepOutputs()[0];
    assert o in DeepOutputs() && DataOf(o.value) == Some(DeepPayload()) && HasActionOverlap(DeepPayload());
    assert DeepPlan().steps[0] in DeepPlan().steps;
  }

  /** An unverified basis beside a corporate action: the built answer fails for the action it does not mention. */
  lemma CorporateActionCanGoUnmentioned()
    ensures var r := SomeReading("FPT: score=None.");
      var a := BuildDeterministicResearchAnswer(r.wording, DeepPlan(), DeepOutputs(), []);
      && KeyedBySteps(DeepPlan(), DeepOutputs()) && ReportsOverlap(DeepOutputs())
      && Validated(r, a, DeepPlan(), DeepOutputs()).status.Fail?
      && Validated(r, a, DeepPlan(), DeepOutputs()).unsupportedNumericClaims == []
  {
    var r := SomeReading("FPT: score=None.");
    DeepOutputIsKeyed();
    ActionIsNotNamed(r);
    DeterministicAnswerPassesIff(r, DeepPlan(), DeepOutputs(), []);
  }

  // ---------------------------------------------------------------------------
  // A missing artifact the plain fallback does not list
  // ---------------------------------------------------------------------------

  function ExplainPlan(): Plan {
    Plan("explain_symbol", [Step("s1", "candidate.explain")], false)
  }

  function ExplainFields(): Payload {
    map["summary" := Str("Candidate FPT."), "data" := Dict(map["missing_data" := List([Str("quality_report")])])]
  }

  function ExplainOutputs(): seq<Output> {
    [Output("s1", Dict(ExplainFields()))]
  }

  const REASON: string := "Model synthesis was unavailable."

  lemma {:induction false} JoinIsFree(parts: seq<string>, c: char)
    requires c != ' ' && forall p :: p in parts ==> IsFree(p, c)
    ensures IsFree(Join(" ", parts), c)
  {
    if |parts| == 1 {
      assert parts[0] in parts;
    } else if |parts| > 1 {
      assert parts[0] in parts;
      JoinIsFree(parts[1..], c);
    }
  }

  lemma ReasonsAreFree()
    ensures IsFree(PUBLIC_WARNING, 'q') && IsFree(FALLBACK_LIMITATION, 'q')
  {
  }

  lemma ExplainBasisIsFree()
    ensures IsFree(Headed("Deterministic tools", "candidate.explain"), 'q')
  {
  }

  ghost predicate HasExplainText(a: Answer) {
    && a.summary == "Candidate FPT."
    && a.basis == Headed("Deterministic tools", "candidate.explain")
    && a.risksCaveats == Join(" ", [PUBLIC_WARNING, FALLBACK_LIMITATION])
    && a.missingData == []
  }

  lemma ExplainDetails()
    ensures var d := DetailsOf(ExplainPlan().steps, ExplainOutputs());
      d.summaries == ["Candidate FPT."] && d.warnings == []
  {
    var steps, outputs := ExplainPlan().steps, ExplainOutputs();
    assert OutputOf(outputs, steps[0]) == ExplainFields();
    assert steps[..0] == [] && Gathered([], outputs, SummaryOf) == [] && Gathered([], outputs, WarningsOf) == [];
    assert Gathered(steps, outputs, SummaryOf) == ["Candidate FPT."];
    assert Gathered(steps, outputs, WarningsOf) == [];
    assert ["Candidate FPT."][..0] == [] && Dedupe([]) == [];
  }

  lemma ExplainText(t: Tables)
    ensures HasExplainText(PlainFallback(t, ExplainPlan(), ExplainOutputs(), [REASON]))
  {
    ExplainDetails();
    assert ExplainPlan().steps[1..] == [] && ToolNames(ExplainPlan().steps) == ["candidate.explain"];
    var values := [PUBLIC_WARNING, FALLBACK_LIMITATION];
    assert [PUBLIC_WARNING] + ([FALLBACK_LIMITATION] + []) == values;
    assert PUBLIC_WARNING[0] == 'A' && FALLBACK_LIMITATION[0] == 'D';
    assert values[..1] == [PUBLIC_WARNING] && [PUBLIC_WARNING][..0] == []
      && Dedupe([PUBLIC_WARNING]) == [PUBLIC_WARNING];
  }

  lemma ReportIsNotDisclosed(fold: Lowering, a: Answer)
    requires HasExplainText(a)
    ensures !Discloses(fold, DisclosedText(fold, a), "quality_report")
  {
    var parts := [a.summary, a.basis, a.risksCaveats] + a.missingData;
    ReasonsAreFree();
    ExplainBasisIsFree();
    JoinIsFree([PUBLIC_WARNING, FALLBACK_LIMITATION], 'q');
    JoinIsFree(parts, 'q');
    NotMentioned(fold, Join(" ", parts), "quality_report", 0);
  }

  lemma ReportIsMissing(w: Wording)
    ensures "quality_report" in AllMissing(w, ExplainOutputs())
  {
    var o := ExplainOutputs()[0];
    assert o in ExplainOutputs();
    StringIsShown(w, [Str("quality_report")], "quality_report");
    assert "quality_report" in OutputMissing(w, o);
  }

  lemma ExplainFallbackExists(w: Wording, t: Tables)
    requires t.readsOnly("candidate.explain") && !t.isResearch("explain_symbol")
    ensures BuildDeterministicToolAnswer(w, t, ExplainPlan(), ExplainOutputs(), [REASON])
         == Some(PlainFallback(t, ExplainPlan(), ExplainOutputs(), [REASON]))
  {
    assert OutputOf(ExplainOutputs(), ExplainPlan().steps[0]) == ExplainFields();
    assert "summary" in ExplainFields();
    assert HasEvidence(ExplainPlan(), ExplainOutputs()) && IsReadOnlyPlan(t, ExplainPlan());
  }

  /** A tool that reports a missing artifact beside its summary: the plain fallback exists, and does not pass. */
  lemma PlainFallbackCanHideMissingData(t: Tables)
    requires t.readsOnly("candidate.explain") && !t.isResearch("explain_symbol")
    ensures var r := SomeReading("");
      var a := PlainFallback(t, ExplainPlan(), ExplainOutputs(), [REASON]);
      && BuildDeterministicToolAnswer(r.wording, t, ExplainPlan(), ExplainOutputs(), [REASON]) == Some(a)
      && !Validated(r, a, ExplainPlan(), ExplainOutputs()).status.Pass?
      && Validated(r, a, ExplainPlan(), ExplainOutputs()).unsupportedNumericClaims == []
  {
    var r := SomeReading("");
    ExplainText(t);
    ReportIsNotDisclosed(r.fold, PlainFallback(t, ExplainPlan(), ExplainOutputs(), [REASON]));
    ReportIsMissing(r.wording);
    PlainFallbackPassesIff(r, t, ExplainPlan(), ExplainOutputs(), [REASON]);
    ExplainFallbackExists(r.wording, t);
  }
}
