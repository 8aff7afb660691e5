/** When a deterministic answer mentions a reported corporate action: an exact condition on what it is built from. */
module ActionDisclosure {
  import opened Common
  import opened ResearchTemplates
  import opened Groundedness
  import opened DegradedAnswer

  // ---------------------------------------------------------------------------
  // Text as the validator compares it
  // ---------------------------------------------------------------------------

  function Seen(fold: char -> string, s: string): string {
    Spaced(Lower(fold, s))
  }

  lemma SeenOfConcat(fold: char -> string, a: string, b: string)
    ensures Seen(fold, a + b) == Seen(fold, a) + Seen(fold, b)
  {
    LowerOfConcat(fold, a, b);
    SpacedOfConcat(Lower(fold, a), Lower(fold, b));
  }

  predicate IsAscii(s: string) {
    forall i | 0 <= i < |s| :: s[i] < '\U{80}'
  }

  function SeenChar(c: char): char {
    if c == '-' then ' ' else AsciiLower(c)
  }

  lemma {:induction false} LowerIsPointwise(fold: Lowering, s: string)
    requires IsAscii(s)
    ensures |Lower(fold, s)| == |s| && forall i :: 0 <= i < |s| ==> Lower(fold, s)[i] == AsciiLower(s[i])
  {
    if s != "" {
      LowerIsPointwise(fold, s[1..]);
    }
  }

  lemma {:induction false} SpacedIsPointwise(s: string)
    ensures |Spaced(s)| == |s| && forall i :: 0 <= i < |s| ==> Spaced(s)[i] == if s[i] == '-' then ' ' else s[i]
  {
    if s != "" {
      SpacedIsPointwise(s[1..]);
    }
  }

  lemma SeenIsPointwise(fold: Lowering, s: string)
    requires IsAscii(s)
    ensures |Seen(fold, s)| == |s| && forall i :: 0 <= i < |s| ==> Seen(fold, s)[i] == SeenChar(s[i])
  {
    LowerIsPointwise(fold, s);
    SpacedIsPointwise(Lower(fold, s));
  }

  /** ASCII text without the letter `c`, case aside. */
  predicate IsFree(s: string, c: char) {
    forall i | 0 <= i < |s| :: s[i] < '\U{80}' && AsciiLower(s[i]) != c
  }

  /** A text without one letter of an item does not disclose the item. */
  lemma NotMentioned(fold: Lowering, text: string, item: string, k: nat)
    requires IsAscii(item) && k < |item| && 'a' <= item[k] <= 'z' && IsFree(text, item[k])
    ensures !Discloses(fold, Lower(fold, text), item)
    ensures !DisclosesBasis(fold, Seen(fold, text), item)
  {
    LowerIsPointwise(fold, text);
    LowerIsPointwise(fold, item);
    SeenIsPointwise(fold, text);
    SeenIsPointwise(fold, item);
    var low, seen, n := Lower(fold, text), Seen(fold, text), |item|;
    forall i | 0 <= i <= |low|
      ensures !OccursAt(low, Lower(fold, item), i) && !OccursAt(seen, Seen(fold, item), i)
    {
      if i + n <= |low| {
        assert low[i..i + n][k] == low[i + k] && seen[i..i + n][k] == seen[i + k];
      }
    }
  }

  /** The text mentions a corporate action, case and hyphens aside. */
  predicate Names(fold: char -> string, s: string) {
    Contains(Seen(fold, s), CORPORATE_ACTION)
  }

  lemma SeenOfChar(fold: Lowering, c: char)
    requires c < '\U{80}'
    ensures Seen(fold, [c]) == [SeenChar(c)]
  {
    SeenIsPointwise(fold, [c]);
  }

  /** Letters and spaces only, in lower case. */
  predicate IsPlain(s: string) {
    forall i | 0 <= i < |s| :: s[i] == ' ' || 'a' <= s[i] <= 'z'
  }

  lemma PlainIsSeen(fold: Lowering, s: string)
    requires IsPlain(s)
    ensures Seen(fold, s) == s
  {
    SeenIsPointwise(fold, s);
  }

  lemma ActionIsPlain()
    ensures IsPlain(CORPORATE_ACTION)
  {
  }

  lemma ActionIsSeen(fold: Lowering)
    ensures Seen(fold, CORPORATE_ACTION) == CORPORATE_ACTION
  {
    ActionIsPlain();
    PlainIsSeen(fold, CORPORATE_ACTION);
  }

  lemma EmptyNamesNothing(fold: char -> string)
    ensures !Names(fold, "")
  {
    assert |CORPORATE_ACTION| > 0;
  }

  // ---------------------------------------------------------------------------
  // Where an occurrence can lie in a text that is put together
  // ---------------------------------------------------------------------------

  lemma PartsOccur(a: string, b: string, part: string)
    ensures Contains(a, part) || Contains(b, part) ==> Contains(a + b, part)
  {
    if Contains(a, part) {
      assert a + b == "" + a + b;
      ContainsMiddle("", a, b);
      ContainsIsTransitive(a + b, a, part);
    } else if Contains(b, part) {
      assert a + b == a + b + "";
      ContainsMiddle(a, b, "");
      ContainsIsTransitive(a + b, b, part);
    }
  }

  lemma OccurrenceCovers(a: string, c: char, b: string, part: string, i: nat)
    requires OccursAt(a + [c] + b, part, i) && i <= |a| < i + |part|
    ensures var k := |a| - i; part[k] == c && a[i..] == part[..k] && part[k + 1..] <= b
  {
    var text, k := a + [c] + b, |a| - i;
    assert forall j :: 0 <= j < |part| ==> part[j] == text[i + j];
    assert part[k] == text[|a|];
    assert forall j :: 0 <= j < |part| - k - 1 ==> part[k + 1..][j] == text[|a| + 1 + j] == b[j];
  }

  /** An occurrence lies on one side of the character `c`, or covers it. */
  lemma OccurrenceMeets(a: string, c: char, b: string, part: string)
    requires Contains(a + [c] + b, part)
    ensures Contains(a, part) || Contains(b, part)
      || exists k | 0 <= k < |part| ::
           part[k] == c && k <= |a| && a[|a| - k..] == part[..k] && part[k + 1..] <= b
  {
    var i: nat :| i <= |a + [c] + b| && OccursAt(a + [c] + b, part, i);
    if i + |part| <= |a| {
      assert a[i..i + |part|] == (a + [c] + b)[i..i + |part|];
      assert OccursAt(a, part, i);
    } else if i > |a| {
      assert b[i - |a| - 1..i - |a| - 1 + |part|] == (a + [c] + b)[i..i + |part|];
      assert OccursAt(b, part, i - |a| - 1);
    } else {
      OccurrenceCovers(a, c, b, part, i);
    }
  }

  lemma AcrossBreak(a: string, c: char, b: string)
    requires c !in CORPORATE_ACTION
    ensures Contains(a + [c] + b, CORPORATE_ACTION) <==> Contains(a, CORPORATE_ACTION) || Contains(b, CORPORATE_ACTION)
  {
    if Contains(a + [c] + b, CORPORATE_ACTION) {
      OccurrenceMeets(a, c, b, CORPORATE_ACTION);
    }
    PartsOccur(a, [c], CORPORATE_ACTION);
    PartsOccur(a + [c], b, CORPORATE_ACTION);
  }

  const GAP: nat := 9

  predicate EndsInFirstWord(s: string) {
    |s| >= GAP && s[|s| - GAP..] == CORPORATE_ACTION[..GAP]
  }

  predicate StartsWithSecondWord(s: string) {
    CORPORATE_ACTION[GAP + 1..] <= s
  }

  lemma OnlyGap()
    ensures |CORPORATE_ACTION| == 16
    ensures forall k :: 0 <= k < 16 ==> (CORPORATE_ACTION[k] == ' ' <==> k == GAP)
  {
  }

  lemma SplitOccurrence(a: string, b: string)
    requires EndsInFirstWord(a) && StartsWithSecondWord(b)
    ensures Contains(a + " " + b, CORPORATE_ACTION)
  {
    OnlyGap();
    var before, after := a[..|a| - GAP], b[|CORPORATE_ACTION| - GAP - 1..];
    assert CORPORATE_ACTION == CORPORATE_ACTION[..GAP] + " " + CORPORATE_ACTION[GAP + 1..];
    assert a == before + CORPORATE_ACTION[..GAP] && b == CORPORATE_ACTION[GAP + 1..] + after;
    assert a + " " + b == before + CORPORATE_ACTION + after;
    ContainsMiddle(before, CORPORATE_ACTION, after);
  }

  lemma AcrossSpace(a: string, b: string)
    ensures Contains(a + " " + b, CORPORATE_ACTION) <==>
      || Contains(a, CORPORATE_ACTION) || Contains(b, CORPORATE_ACTION)
      || (EndsInFirstWord(a) && StartsWithSecondWord(b))
  {
    OnlyGap();
    if Contains(a + " " + b, CORPORATE_ACTION) {
      OccurrenceMeets(a, ' ', b, CORPORATE_ACTION);
    }
    PartsOccur(a, " ", CORPORATE_ACTION);
    PartsOccur(a + " ", b, CORPORATE_ACTION);
    if EndsInFirstWord(a) && StartsWithSecondWord(b) {
      SplitOccurrence(a, b);
    }
  }

  predicate IsMark(c: char) {
    c == ',' || c == '.' || c == ':' || c == ';'
  }

  lemma SeenAcross(fold: Lowering, a: string, mark: char, b: string)
    requires IsMark(mark)
    ensures Seen(fold, a + [mark, ' '] + b) == Seen(fold, a) + [mark] + (" " + Seen(fold, b))
  {
    SeenOfConcat(fold, a + [mark, ' '], b);
    SeenOfConcat(fold, a, [mark, ' ']);
    SeenOfConcat(fold, [mark], [' ']);
    SeenOfChar(fold, mark);
    SeenOfChar(fold, ' ');
    assert [mark, ' '] == [mark] + [' '];
    var x, y := Seen(fold, a), Seen(fold, b);
    assert x + ([mark] + [' ']) + y == x + [mark] + ([' '] + y);
  }

  lemma LeadingSpace(b: string)
    ensures Contains(" " + b, CORPORATE_ACTION) <==> Contains(b, CORPORATE_ACTION)
  {
    AcrossSpace("", b);
    assert "" + " " + b == " " + b;
  }

  /** A punctuation mark and a space keep two texts apart. */
  lemma NamesAcross(fold: Lowering, a: string, mark: char, b: string)
    requires IsMark(mark)
    ensures Names(fold, a + [mark, ' '] + b) <==> Names(fold, a) || Names(fold, b)
  {
    SeenAcross(fold, a, mark, b);
    AcrossBreak(Seen(fold, a), mark, " " + Seen(fold, b));
    LeadingSpace(Seen(fold, b));
  }

  ghost predicate SomeNaming(fold: char -> string, xs: seq<string>) {
    exists x :: x in xs && Names(fold, x)
  }

  lemma SomeNames(fold: char -> string, xs: seq<string>, ys: seq<string>)
    ensures SomeNaming(fold, xs + ys) <==> SomeNaming(fold, xs) || SomeNaming(fold, ys)
    ensures |xs| == 1 ==> (SomeNaming(fold, xs) <==> Names(fold, xs[0]))
  {
    if SomeNaming(fold, xs) {
      var x :| x in xs && Names(fold, x);
      assert x in xs + ys;
    }
    if SomeNaming(fold, ys) {
      var x :| x in ys && Names(fold, x);
      assert x in xs + ys;
    }
    if |xs| == 1 {
      assert xs == [xs[0]];
    }
  }

  lemma {:induction false} CommaJoinNamesIff(fold: Lowering, xs: seq<string>)
    ensures Names(fold, Join(", ", xs)) <==> SomeNaming(fold, xs)
  {
    if xs == [] {
      EmptyNamesNothing(fold);
    } else if |xs| == 1 {
      assert xs[0] in xs;
    } else {
      NamesAcross(fold, xs[0], ',', Join(", ", xs[1..]));
      CommaJoinNamesIff(fold, xs[1..]);
      SomeNames(fold, [xs[0]], xs[1..]);
      assert xs == [xs[0]] + xs[1..];
    }
  }

  /** The words of a corporate action, one at the end of `a` and one at the start of `b`. */
  predicate Splits(fold: char -> string, a: string, b: string) {
    EndsInFirstWord(Seen(fold, a)) && StartsWithSecondWord(Seen(fold, b))
  }

  /** Two neighbours of a text split the words between them. */
  ghost predicate Straddles(fold: char -> string, parts: seq<string>) {
    exists i :: 0 <= i < |parts| - 1 && Splits(fold, parts[i], parts[i + 1])
  }

  lemma StraddlesOneMore(fold: char -> string, x: string, parts: seq<string>)
    requires parts != []
    ensures Straddles(fold, [x] + parts) <==> (Straddles(fold, parts) || Splits(fold, x, parts[0]))
  {
    var all := [x] + parts;
    assert all[0] == x && all[1] == parts[0];
    if Straddles(fold, parts) {
      var i :| 0 <= i < |parts| - 1 && Splits(fold, parts[i], parts[i + 1]);
      assert all[i + 1] == parts[i] && all[i + 1 + 1] == parts[i + 1];
    }
    if Straddles(fold, all) {
      var i :| 0 <= i < |all| - 1 && Splits(fold, all[i], all[i + 1]);
      if i > 0 {
        assert all[i] == parts[i - 1] && all[i + 1] == parts[i - 1 + 1];
      }
    }
  }

  /** A word at the start of a text lies before the first space. */
  lemma WordComesFirst(word: string, x: string, y: string)
    requires ' ' !in word
    ensures word <= x + " " + y <==> word <= x
  {
    var text := x + " " + y;
    assert text[|x|] == ' ';
  }

  lemma JoinSeen(fold: Lowering, parts: seq<string>)
    requires |parts| > 1
    ensures Seen(fold, Join(" ", parts)) == Seen(fold, parts[0]) + " " + Seen(fold, Join(" ", parts[1..]))
  {
    SeenOfConcat(fold, parts[0] + " ", Join(" ", parts[1..]));
    SeenOfConcat(fold, parts[0], " ");
    SeenOfChar(fold, ' ');
  }

  /** A joined text starts with the second word exactly when its first part does. */
  lemma JoinStarts(fold: Lowering, parts: seq<string>)
    requires parts != []
    ensures StartsWithSecondWord(Seen(fold, Join(" ", parts))) <==> StartsWithSecondWord(Seen(fold, parts[0]))
  {
    if |parts| > 1 {
      JoinSeen(fold, parts);
      OnlyGap();
      WordComesFirst(CORPORATE_ACTION[GAP + 1..], Seen(fold, parts[0]), Seen(fold, Join(" ", parts[1..])));
    }
  }

  lemma {:induction false} SpaceJoinNamesIff(fold: Lowering, parts: seq<string>)
    ensures Names(fold, Join(" ", parts)) <==> (SomeNaming(fold, parts) || Straddles(fold, parts))
  {
    if parts == [] {
      EmptyNamesNothing(fold);
    } else if |parts| == 1 {
      assert parts[0] in parts;
    } else {
      var rest := parts[1..];
      assert parts == [parts[0]] + rest;
      JoinSeen(fold, parts);
      AcrossSpace(Seen(fold, parts[0]), Seen(fold, Join(" ", rest)));
      JoinStarts(fold, rest);
      StraddlesOneMore(fold, parts[0], rest);
      SomeNames(fold, [parts[0]], rest);
      SpaceJoinNamesIff(fold, rest);
    }
  }

  lemma {:induction false} JoinOfConcat(separator: string, a: seq<string>, b: seq<string>)
    requires a != [] && b != []
    ensures Join(separator, a + b) == Join(separator, a) + separator + Join(separator, b)
  {
    if |a| > 1 {
      JoinOfConcat(separator, a[1..], b);
      assert (a + b)[1..] == a[1..] + b;
      var x, y, z := a[0] + separator, Join(separator, a[1..]), separator + Join(separator, b);
      assert x + (y + z) == (x + y) + z;
    } else {
      assert (a + b)[1..] == b;
    }
  }

  /** Joining a joined part is joining its parts. */
  lemma JoinFlattens(separator: string, before: seq<string>, inner: seq<string>, after: seq<string>)
    requires before != [] && inner != []
    ensures Join(separator, before + [Join(separator, inner)] + after) == Join(separator, before + inner + after)
  {
    var joined := [Join(separator, inner)];
    JoinOfConcat(separator, before, joined);
    JoinOfConcat(separator, before, inner);
    if after == [] {
      assert before + joined + after == before + joined && before + inner + after == before + inner;
    } else {
      JoinOfConcat(separator, before + joined, after);
      JoinOfConcat(separator, before + inner, after);
    }
  }

  // ---------------------------------------------------------------------------
  // Texts that name no corporate action
  // ---------------------------------------------------------------------------

  /** A text without one of its letters. */
  lemma LetterMissing(fold: Lowering, s: string, c: char)
    requires c in CORPORATE_ACTION && c != ' ' && IsFree(s, c)
    ensures !Names(fold, s)
  {
    ActionIsPlain();
    ActionIsSeen(fold);
    var k :| 0 <= k < |CORPORATE_ACTION| && CORPORATE_ACTION[k] == c;
    NotMentioned(fold, s, CORPORATE_ACTION, k);
  }

  /** ASCII text in which no `o` follows a `p`, and neither is a capital. */
  predicate LacksPo(s: string) {
    forall i :: 0 <= i < |s| ==>
      s[i] < '\U{80}' && s[i] != 'P' && s[i] != 'O' && (s[i] == 'p' && i + 1 < |s| ==> s[i + 1] != 'o')
  }

  lemma PairMissing(fold: Lowering, s: string)
    requires LacksPo(s)
    ensures !Names(fold, s)
  {
    SeenIsPointwise(fold, s);
    var t := Seen(fold, s);
    assert CORPORATE_ACTION[3] == 'p' && CORPORATE_ACTION[4] == 'o';
    forall i | 0 <= i <= |t|
      ensures !OccursAt(t, CORPORATE_ACTION, i)
    {
      if i + |CORPORATE_ACTION| <= |t| {
        assert t[i..i + |CORPORATE_ACTION|][3] == t[i + 3] == SeenChar(s[i + 3]);
        assert t[i..i + |CORPORATE_ACTION|][4] == t[i + 4] == SeenChar(s[i + 4]);
      }
    }
  }

  lemma LacksPoConcat(a: string, b: string)
    requires LacksPo(a) && LacksPo(b) && (b != "" ==> b[0] != 'o')
    ensures LacksPo(a + b)
  {
  }

  lemma ContextLacksPo()
    ensures LacksPo("context based on ") && LacksPo("persisted artifacts; ")
  {
  }

  lemma InstructionLacksPo()
    ensures LacksPo("not a recommendation or ") && LacksPo("an instruction to ")
  {
  }

  lemma OrderLacksPo()
    ensures LacksPo("place an order.") && LacksPo("Research-only ")
  {
  }

  lemma ResearchCaveatIsSilent(fold: Lowering)
    ensures !Names(fold, RESEARCH_ONLY_CAVEAT)
  {
    ContextLacksPo();
    InstructionLacksPo();
    OrderLacksPo();
    var order := "an instruction to " + "place an order.";
    LacksPoConcat("an instruction to ", "place an order.");
    LacksPoConcat("not a recommendation or ", order);
    LacksPoConcat("persisted artifacts; ", "not a recommendation or " + order);
    LacksPoConcat("context based on ", "persisted artifacts; " + ("not a recommendation or " + order));
    LacksPoConcat("Research-only ",
                  "context based on " + ("persisted artifacts; " + ("not a recommendation or " + order)));
    PairMissing(fold, RESEARCH_ONLY_CAVEAT);
  }

  lemma LimitsLackPo()
    ensures LacksPo("persisted context includes ") && LacksPo("limitations")
  {
  }

  lemma LimitsAreSilent(fold: Lowering)
    ensures !Names(fold, "persisted context includes " + "limitations")
  {
    LimitsLackPo();
    LacksPoConcat("persisted context includes ", "limitations");
    PairMissing(fold, "persisted context includes " + "limitations");
  }

  lemma LongHeadingsAreFree()
    ensures IsFree("missing persisted artifacts", 'o') && IsFree("Deterministic tools", 'p')
  {
  }

  lemma ShortHeadingsAreFree()
    ensures IsFree("Caveat", 'o') && IsFree("none", 'c') && IsFree("Price basis", 'o') && IsFree("Tool result", 'p')
  {
  }

  lemma SummaryHeadingsAreSilent(fold: Lowering)
    ensures !Names(fold, "Caveat") && !Names(fold, "missing persisted artifacts")
  {
    LongHeadingsAreFree();
    ShortHeadingsAreFree();
    LetterMissing(fold, "Caveat", 'o');
    LetterMissing(fold, "missing persisted artifacts", 'o');
  }

  lemma BasisHeadingsAreSilent(fold: Lowering)
    ensures !Names(fold, "Deterministic tools") && !Names(fold, "none")
    ensures !Names(fold, "Price basis") && !Names(fold, "Tool result")
  {
    LongHeadingsAreFree();
    ShortHeadingsAreFree();
    LetterMissing(fold, "Deterministic tools", 'p');
    LetterMissing(fold, "none", 'c');
    LetterMissing(fold, "Price basis", 'o');
    LetterMissing(fold, "Tool result", 'p');
  }

  lemma HeadedNamesIff(fold: Lowering, heading: string, text: string)
    requires !Names(fold, heading)
    ensures Names(fold, Headed(heading, text)) <==> Names(fold, text)
  {
    NamesAcross(fold, heading, ':', text);
  }

  // ---------------------------------------------------------------------------
  // The lines of a deterministic answer
  // ---------------------------------------------------------------------------

  lemma MissingNamesIff(fold: Lowering, outer: string, inner: string, missing: seq<string>, sentence: string)
    requires !Names(fold, outer) && !Names(fold, inner)
    ensures Names(fold, Headed(outer, Headed(inner, Join(", ", missing) + ". " + sentence))) <==>
      (Names(fold, sentence) || SomeNaming(fold, missing))
  {
    var list := Join(", ", missing) + ". " + sentence;
    HeadedNamesIff(fold, outer, Headed(inner, list));
    HeadedNamesIff(fold, inner, list);
    NamesAcross(fold, Join(", ", missing), '.', sentence);
    CommaJoinNamesIff(fold, missing);
  }

  lemma LimitedNamesIff(fold: Lowering, outer: string, limits: string, sentence: string)
    requires !Names(fold, outer) && !Names(fold, limits)
    ensures Names(fold, Headed(outer, limits + ". " + sentence)) <==> Names(fold, sentence)
  {
    HeadedNamesIff(fold, outer, limits + ". " + sentence);
    NamesAcross(fold, limits, '.', sentence);
  }

  lemma SummaryNamesIff(fold: Lowering, w: Wording, plan: Plan, payloads: seq<Payload>, missing: seq<string>,
                        caveats: seq<string>)
    ensures Names(fold, Summary(w, plan, payloads, missing, caveats)) <==>
      (Names(fold, w.summarize(plan.intent, payloads)) || SomeNaming(fold, missing))
  {
    var sentence := w.summarize(plan.intent, payloads);
    SummaryHeadingsAreSilent(fold);
    if missing != [] {
      MissingNamesIff(fold, "Caveat", "missing persisted artifacts", missing, sentence);
    } else if plan.intent in CAVEAT_FIRST_INTENTS && caveats != [] {
      LimitsAreSilent(fold);
      LimitedNamesIff(fold, "Caveat", "persisted context includes " + "limitations", sentence);
    }
  }

  /** The names a basis line is made of, with the tool result a fallback adds. */
  function BasisNamesOf(w: Wording, plan: Plan, payloads: seq<Payload>, result: seq<string>): seq<string> {
    ToolNames(plan.steps) + PriceBases(w, payloads) + result
  }

  function BasisLine(w: Wording, plan: Plan, payloads: seq<Payload>, result: seq<string>): string {
    Basis(w, plan, payloads) + (if result == [] then "" else "; " + Headed("Tool result", result[0]))
  }

  /** A further item of the basis line, under a heading. */
  lemma ItemNamesIff(fold: Lowering, line: string, heading: string, item: string)
    requires !Names(fold, heading)
    ensures Names(fold, line + ("; " + Headed(heading, item))) <==> (Names(fold, line) || Names(fold, item))
  {
    assert line + ("; " + Headed(heading, item)) == line + "; " + Headed(heading, item);
    NamesAcross(fold, line, ';', Headed(heading, item));
    HeadedNamesIff(fold, heading, item);
  }

  lemma BasisTextNamesIff(fold: Lowering, tools: string, prices: string, names: seq<string>, bases: seq<string>)
    requires !Names(fold, tools) && !Names(fold, prices) && !Names(fold, "none")
    ensures var line := Headed(tools, Join(", ", if names == [] then ["none"] else names));
      Names(fold, line + (if bases == [] then "" else "; " + Headed(prices, Join(", ", bases)))) <==>
      (SomeNaming(fold, names) || SomeNaming(fold, bases))
  {
    var shown := if names == [] then ["none"] else names;
    HeadedNamesIff(fold, tools, Join(", ", shown));
    CommaJoinNamesIff(fold, shown);
    SomeNames(fold, shown, []);
    var line := Headed(tools, Join(", ", shown));
    if bases == [] {
      assert line + "" == line;
    } else {
      ItemNamesIff(fold, line, prices, Join(", ", bases));
      CommaJoinNamesIff(fold, bases);
    }
  }

  lemma BasisNamesIff(fold: Lowering, w: Wording, plan: Plan, payloads: seq<Payload>)
    ensures Names(fold, Basis(w, plan, payloads)) <==>
      SomeNaming(fold, ToolNames(plan.steps) + PriceBases(w, payloads))
  {
    var names, bases := ToolNames(plan.steps), Dedupe(PriceBases(w, payloads));
    BasisHeadingsAreSilent(fold);
    BasisTextNamesIff(fold, "Deterministic tools", "Price basis", names, bases);
    SomeNames(fold, names, PriceBases(w, payloads));
    SameMembers(fold, PriceBases(w, payloads), bases);
  }

  lemma SameMembers(fold: char -> string, xs: seq<string>, ys: seq<string>)
    requires forall x :: x in xs <==> x in ys
    ensures SomeNaming(fold, xs) <==> SomeNaming(fold, ys)
  {
  }

  lemma ResultNamesIff(fold: Lowering, line: string, heading: string, result: seq<string>)
    requires |result| <= 1 && !Names(fold, heading)
    ensures Names(fold, line + (if result == [] then "" else "; " + Headed(heading, result[0]))) <==>
      (Names(fold, line) || SomeNaming(fold, result))
  {
    SomeNames(fold, result, []);
    if result == [] {
      assert line + "" == line;
    } else {
      ItemNamesIff(fold, line, heading, result[0]);
    }
  }

  lemma BasisLineNamesIff(fold: Lowering, w: Wording, plan: Plan, payloads: seq<Payload>, result: seq<string>)
    requires |result| <= 1
    ensures Names(fold, BasisLine(w, plan, payloads, result)) <==>
      SomeNaming(fold, BasisNamesOf(w, plan, payloads, result))
  {
    BasisNamesIff(fold, w, plan, payloads);
    SomeNames(fold, ToolNames(plan.steps) + PriceBases(w, payloads), result);
    BasisHeadingsAreSilent(fold);
    ResultNamesIff(fold, Basis(w, plan, payloads), "Tool result", result);
  }

  /** A basis line does not start with the second word. */
  lemma BasisStartsOtherwise(fold: Lowering, w: Wording, plan: Plan, payloads: seq<Payload>, result: seq<string>)
    ensures !StartsWithSecondWord(Seen(fold, BasisLine(w, plan, payloads, result)))
  {
    var line := BasisLine(w, plan, payloads, result);
    assert line[0] == Basis(w, plan, payloads)[0] == 'D' && line == [line[0]] + line[1..];
    SeenOfConcat(fold, [line[0]], line[1..]);
    SeenOfChar(fold, 'D');
    assert CORPORATE_ACTION[GAP + 1..][0] == 'a';
  }

  function RiskParts(w: Wording, payloads: seq<Payload>, reasons: seq<string>): seq<string> {
    Dedupe(NonEmpty(Dedupe(AllListed(w, payloads, "caveats")) + reasons + [RESEARCH_ONLY_CAVEAT]))
  }

  lemma RiskPartsNameIff(fold: Lowering, w: Wording, payloads: seq<Payload>, reasons: seq<string>)
    ensures RiskParts(w, payloads, reasons) != []
    ensures SomeNaming(fold, RiskParts(w, payloads, reasons))
      <==> SomeNaming(fold, AllListed(w, payloads, "caveats") + reasons)
  {
    var parts := RiskParts(w, payloads, reasons);
    EmptyNamesNothing(fold);
    ResearchCaveatIsSilent(fold);
    assert RESEARCH_ONLY_CAVEAT != "" by { assert RESEARCH_ONLY_CAVEAT[0] == 'R'; }
    assert RESEARCH_ONLY_CAVEAT in parts;
    forall x | x in AllListed(w, payloads, "caveats") + reasons && Names(fold, x)
      ensures x in parts
    {
      assert x in Dedupe(AllListed(w, payloads, "caveats")) + reasons + [RESEARCH_ONLY_CAVEAT];
    }
  }

  // ---------------------------------------------------------------------------
  // The exact condition
  // ---------------------------------------------------------------------------

  /** Everything from outside that a deterministic answer says; `result` is the tool summary a fallback adds. */
  function Said(w: Wording, plan: Plan, payloads: seq<Payload>, reasons: seq<string>,
                result: seq<string>): seq<string> {
    [w.summarize(plan.intent, payloads)] + AllListed(w, payloads, "missing_data")
    + BasisNamesOf(w, plan, payloads, result) + (AllListed(w, payloads, "caveats") + reasons)
  }

  /** The lines after the summary, in their order. */
  function Lines(w: Wording, plan: Plan, payloads: seq<Payload>, reasons: seq<string>,
                 result: seq<string>): seq<string> {
    [BasisLine(w, plan, payloads, result)] + RiskParts(w, payloads, reasons)
    + Dedupe(AllListed(w, payloads, "missing_data"))
  }

  /**
   * A corporate action is named by one of the texts the answer is built from, or split between two lines that come
   * to stand next to each other.
   */
  ghost predicate ActionIsNamed(r: Reading, plan: Plan, outputs: seq<Output>, reasons: seq<string>,
                                result: seq<string>) {
    var payloads := Payloads(plan.steps, outputs);
    || SomeNaming(r.fold, Said(r.wording, plan, payloads, reasons, result))
    || Straddles(r.fold, Lines(r.wording, plan, payloads, reasons, result))
  }

  /** The answer has the text of a deterministic one, with a tool result behind its basis. */
  ghost predicate IsWorded(w: Wording, plan: Plan, outputs: seq<Output>, reasons: seq<string>, result: seq<string>,
                           a: Answer) {
    var built := BuildDeterministicResearchAnswer(w, plan, outputs, reasons);
    && a.summary == built.summary && a.risksCaveats == built.risksCaveats && a.missingData == built.missingData
    && a.basis == BasisLine(w, plan, Payloads(plan.steps, outputs), result)
  }

  lemma WordedText(w: Wording, plan: Plan, outputs: seq<Output>, reasons: seq<string>, result: seq<string>, a: Answer)
    requires IsWorded(w, plan, outputs, reasons, result, a)
    requires RiskParts(w, Payloads(plan.steps, outputs), reasons) != []
    ensures Join(" ", [a.summary, a.basis, a.risksCaveats] + a.missingData)
         == Join(" ", [a.summary] + Lines(w, plan, Payloads(plan.steps, outputs), reasons, result))
  {
    RegroupLines(a.summary, a.basis, RiskParts(w, Payloads(plan.steps, outputs), reasons), a.missingData);
  }

  lemma RegroupLines(summary: string, basis: string, risks: seq<string>, missing: seq<string>)
    requires risks != []
    ensures Join(" ", [summary, basis, Join(" ", risks)] + missing)
         == Join(" ", [summary] + ([basis] + risks + missing))
  {
    JoinFlattens(" ", [summary, basis], risks, missing);
    assert [summary, basis, Join(" ", risks)] + missing == [summary, basis] + [Join(" ", risks)] + missing;
    assert [summary, basis] + risks + missing == [summary] + ([basis] + risks + missing);
  }

  /** Some line of the answer names it exactly when something said does. */
  lemma LinesNameIff(r: Reading, plan: Plan, outputs: seq<Output>, reasons: seq<string>, result: seq<string>, a: Answer)
    requires IsWorded(r.wording, plan, outputs, reasons, result, a) && |result| <= 1
    ensures var payloads := Payloads(plan.steps, outputs);
      SomeNaming(r.fold, [a.summary] + Lines(r.wording, plan, payloads, reasons, result)) <==>
      SomeNaming(r.fold, Said(r.wording, plan, payloads, reasons, result))
  {
    var payloads := Payloads(plan.steps, outputs);
    var missing, caveats := AllListed(r.wording, payloads, "missing_data"), AllListed(r.wording, payloads, "caveats");
    SummaryNamesIff(r.fold, r.wording, plan, payloads, Dedupe(missing), Dedupe(caveats));
    BasisLineNamesIff(r.fold, r.wording, plan, payloads, result);
    RiskPartsNameIff(r.fold, r.wording, payloads, reasons);
    SomeNames(r.fold, [a.summary], Lines(r.wording, plan, payloads, reasons, result));
    SomeNames(r.fold, [a.basis] + RiskParts(r.wording, payloads, reasons), Dedupe(missing));
    SomeNames(r.fold, [a.basis], RiskParts(r.wording, payloads, reasons));
    SaidNames(r.fold, r.wording, plan, payloads, reasons, result);
    assert SomeNaming(r.fold, Dedupe(missing)) <==> SomeNaming(r.fold, missing);
  }

  lemma SaidNames(fold: char -> string, w: Wording, plan: Plan, payloads: seq<Payload>, reasons: seq<string>,
                  result: seq<string>)
    ensures SomeNaming(fold, Said(w, plan, payloads, reasons, result)) <==>
      || Names(fold, w.summarize(plan.intent, payloads))
      || SomeNaming(fold, AllListed(w, payloads, "missing_data"))
      || SomeNaming(fold, BasisNamesOf(w, plan, payloads, result))
      || SomeNaming(fold, AllListed(w, payloads, "caveats") + reasons)
  {
    var sentence, missing := [w.summarize(plan.intent, payloads)], AllListed(w, payloads, "missing_data");
    var names := BasisNamesOf(w, plan, payloads, result);
    SomeNames(fold, sentence, missing);
    SomeNames(fold, sentence + missing, names);
    SomeNames(fold, sentence + missing + names, AllListed(w, payloads, "caveats") + reasons);
  }

  lemma MentionsIffNamed(r: Reading, plan: Plan, outputs: seq<Output>, reasons: seq<string>, result: seq<string>,
                         a: Answer)
    requires IsWorded(r.wording, plan, outputs, reasons, result, a) && |result| <= 1
    ensures DisclosesBasis(r.fold, Spaced(DisclosedText(r.fold, a)), CORPORATE_ACTION)
      <==> ActionIsNamed(r, plan, outputs, reasons, result)
  {
    var payloads := Payloads(plan.steps, outputs);
    var lines := Lines(r.wording, plan, payloads, reasons, result);
    ActionIsSeen(r.fold);
    RiskPartsNameIff(r.fold, r.wording, payloads, reasons);
    WordedText(r.wording, plan, outputs, reasons, result, a);
    SpaceJoinNamesIff(r.fold, [a.summary] + lines);
    StraddlesOneMore(r.fold, a.summary, lines);
    BasisStartsOtherwise(r.fold, r.wording, plan, payloads, result);
    LinesNameIff(r, plan, outputs, reasons, result, a);
  }

  /**
   * The deterministic research answer passes its own validator exactly when there was a step, its numbers are
   * supported, and a reported corporate action is named by what the answer is built from.
   */
  lemma DeterministicAnswerPassesIff(r: Reading, plan: Plan, outputs: seq<Output>, reasons: seq<string>)
    requires KeyedBySteps(plan, outputs)
    ensures
      var v := Validated(r, BuildDeterministicResearchAnswer(r.wording, plan, outputs, reasons), plan, outputs);
      && v.unsupportedSourceRefs == [] && v.undisclosedMissingData == []
      && (v.status == if plan.steps != [] && v.unsupportedNumericClaims == []
                         && (ReportsOverlap(outputs) ==> ActionIsNamed(r, plan, outputs, reasons, []))
                      then Pass else Fail)
  {
    var a := BuildDeterministicResearchAnswer(r.wording, plan, outputs, reasons);
    BuiltAnswerCloses(r.wording, plan, outputs, reasons);
    ClosedAnswerPassesIff(r, plan, outputs, a);
    BuiltIsWorded(r.wording, plan, outputs, reasons);
    MentionsIffNamed(r, plan, outputs, reasons, [], a);
  }

  /** What the details of the outputs add to a research fallback. */
  function FirstSummary(plan: Plan, outputs: seq<Output>): (r: seq<string>)
    ensures |r| <= 1
  {
    var summaries := DetailsOf(plan.steps, outputs).summaries;
    if summaries == [] then [] else [summaries[0]]
  }

  function WarnedReasons(plan: Plan, outputs: seq<Output>, reasons: seq<string>): seq<string> {
    [FallbackReasons(reasons, DetailsOf(plan.steps, outputs).warnings)]
  }

  lemma FallbackIsWorded(w: Wording, plan: Plan, outputs: seq<Output>, reasons: seq<string>)
    ensures IsWorded(w, plan, outputs, WarnedReasons(plan, outputs, reasons), FirstSummary(plan, outputs),
                     ResearchFallback(w, plan, outputs, reasons))
  {
    var line := Basis(w, plan, Payloads(plan.steps, outputs));
    assert line + "" == line;
  }

  lemma BuiltIsWorded(w: Wording, plan: Plan, outputs: seq<Output>, reasons: seq<string>)
    ensures IsWorded(w, plan, outputs, reasons, [], BuildDeterministicResearchAnswer(w, plan, outputs, reasons))
  {
    var line := Basis(w, plan, Payloads(plan.steps, outputs));
    assert line + "" == line;
  }

  /** The same of the fallback of a research intent. */
  lemma ResearchFallbackPassesIff(r: Reading, plan: Plan, outputs: seq<Output>, reasons: seq<string>)
    requires KeyedBySteps(plan, outputs)
    ensures
      var v := Validated(r, ResearchFallback(r.wording, plan, outputs, reasons), plan, outputs);
      && v.unsupportedSourceRefs == [] && v.undisclosedMissingData == []
      && (v.status == if plan.steps != [] && v.unsupportedNumericClaims == []
                         && (ReportsOverlap(outputs) ==> ActionIsNamed(r, plan, outputs,
                               WarnedReasons(plan, outputs, reasons), FirstSummary(plan, outputs)))
                      then Pass else Fail)
  {
    var a := ResearchFallback(r.wording, plan, outputs, reasons);
    ResearchFallbackCloses(r.wording, plan, outputs, reasons);
    ClosedAnswerPassesIff(r, plan, outputs, a);
    FallbackIsWorded(r.wording, plan, outputs, reasons);
    MentionsIffNamed(r, plan, outputs, WarnedReasons(plan, outputs, reasons), FirstSummary(plan, outputs), a);
  }

  lemma SaidInCaveat(r: Reading, plan: Plan, outputs: seq<Output>, reasons: seq<string>, result: seq<string>,
                     caveat: string)
    requires caveat in AllListed(r.wording, Payloads(plan.steps, outputs), "caveats") && Names(r.fold, caveat)
    ensures ActionIsNamed(r, plan, outputs, reasons, result)
  {
    assert caveat in Said(r.wording, plan, Payloads(plan.steps, outputs), reasons, result);
  }

  /** With one caveat that names the action, both research answers pass exactly when their numbers are supported. */
  lemma NamingCaveatSuffices(r: Reading, plan: Plan, outputs: seq<Output>, reasons: seq<string>, caveat: string)
    requires KeyedBySteps(plan, outputs) && plan.steps != []
    requires caveat in AllListed(r.wording, Payloads(plan.steps, outputs), "caveats") && Names(r.fold, caveat)
    ensures var a := BuildDeterministicResearchAnswer(r.wording, plan, outputs, reasons);
      Validated(r, a, plan, outputs).status.Pass? <==> r.unsupportedNumbers(a, outputs) == []
    ensures var a := ResearchFallback(r.wording, plan, outputs, reasons);
      Validated(r, a, plan, outputs).status.Pass? <==> r.unsupportedNumbers(a, outputs) == []
  {
    SaidInCaveat(r, plan, outputs, reasons, [], caveat);
    DeterministicAnswerPassesIff(r, plan, outputs, reasons);
    SaidInCaveat(r, plan, outputs, WarnedReasons(plan, outputs, reasons), FirstSummary(plan, outputs), caveat);
    ResearchFallbackPassesIff(r, plan, outputs, reasons);
  }

  predicate IsSeenAs(s: string, seen: string) {
    |s| == |seen| && forall i | 0 <= i < |s| :: s[i] < '\U{80}' && SeenChar(s[i]) == seen[i]
  }

  lemma SeenAsGiven(fold: Lowering, s: string, seen: string)
    requires IsSeenAs(s, seen)
    ensures Seen(fold, s) == seen
  {
    SeenIsPointwise(fold, s);
  }

  lemma HeadNames(fold: Lowering, head: string, rest: string)
    requires Seen(fold, head) == CORPORATE_ACTION
    ensures Names(fold, head + rest)
  {
    SeenOfConcat(fold, head, rest);
    assert Seen(fold, head) + Seen(fold, rest) == "" + CORPORATE_ACTION + Seen(fold, rest);
    ContainsMiddle("", CORPORATE_ACTION, Seen(fold, rest));
  }

  lemma HyphenIsSeenAsSpace()
    ensures IsSeenAs("Corporate-action", CORPORATE_ACTION)
  {
  }

  /** The caveat that `analysis.deep_symbol` adds to a verified price basis is one. */
  lemma ActionCaveatNames(fold: Lowering, rest: string)
    ensures Names(fold, "Corporate-action" + rest)
  {
    HyphenIsSeenAsSpace();
    SeenAsGiven(fold, "Corporate-action", CORPORATE_ACTION);
    HeadNames(fold, "Corporate-action", rest);
  }
}
