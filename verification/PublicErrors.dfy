/**
 * Length-bounded public error text, `chat/errors.py`.
 * The sanitizer (with its whitespace collapsing) and the markup escape are parameters;
 * every bound holds for all of them, escapes that are not monotone included.
 */
module PublicErrors {
  import opened Common

  const MAX_PUBLIC_ERROR_CHARS: nat := 4096
  const PUBLIC_ERROR_SCAN_CHARS: nat := 8192
  const REMEDIATION_CHARS: nat := 1536
  const CORRELATION_CHARS: nat := 512
  const TOOL_FAILURE_PREFIX: string := "[TOOL FAILED] "

  /** `clean(raw, truncated)` is the sanitized text with single spaces between its words. */
  datatype Text = Text(clean: (string, bool) -> string, escape: string -> string)

  /** The one law asked of the escape: the empty string escapes to the empty string. */
  ghost predicate EscapesEmpty(t: Text) {
    Fragment(t, "") == ""
  }

  function DropLast(s: string): string {
    if s == "" then "" else s[..|s| - 1]
  }

  function Fragment(t: Text, text: string): string {
    DropLast(t.escape(text + "]"))
  }

  function RStrip(s: string, drop: char -> bool): (r: string)
    ensures r <= s
    ensures r != "" ==> !drop(r[|r| - 1])
    ensures forall i :: |r| <= i < |s| ==> drop(s[i])
  {
    if s != "" && drop(s[|s| - 1]) then RStrip(s[..|s| - 1], drop) else s
  }

  // ---------------------------------------------------------------------------
  // The binary search for the cut
  // ---------------------------------------------------------------------------

  predicate Fits(t: Text, text: string, budget: nat, k: nat)
    requires k <= |text|
  {
    |Fragment(t, text[..k])| <= budget
  }

  /** What the search keeps between its two ends, whatever the escape does elsewhere. */
  ghost predicate Brackets(t: Text, text: string, budget: nat, low: nat, high: nat) {
    && low <= high <= |text|
    && (low == 0 || Fits(t, text, budget, low))
    && (high == |text| || !Fits(t, text, budget, high + 1))
  }

  /** The cut the search makes between `low` and `high`. */
  function Cut(t: Text, text: string, budget: nat, low: nat, high: nat): (k: nat)
    requires low <= high <= |text|
    ensures low <= k <= high
    decreases high - low
  {
    if low == high then low
    else
      var midpoint := (low + high + 1) / 2;
      if Fits(t, text, budget, midpoint) then Cut(t, text, budget, midpoint, high)
      else Cut(t, text, budget, low, midpoint - 1)
  }

  function EscapedPrefix(t: Text, text: string, budget: nat): string
  {
    Fragment(t, text[..Cut(t, text, budget, 0, |text|)])
  }

  method EscapePrefix(t: Text, text: string, budget: nat) returns (r: string)
    ensures r == EscapedPrefix(t, text, budget)
  {
    var low, high := 0, |text|;
    while low < high
      invariant low <= high <= |text|
      invariant Cut(t, text, budget, low, high) == Cut(t, text, budget, 0, |text|)
    {
      var midpoint := (low + high + 1) / 2;
      if |Fragment(t, text[..midpoint])| <= budget {
        low := midpoint;
      } else {
        high := midpoint - 1;
      }
    }
    r := Fragment(t, text[..low]);
  }

  /** For any escape, the cut fits and taking one more character does not. */
  lemma {:induction false} CutIsBoundary(t: Text, text: string, budget: nat, low: nat, high: nat)
    requires Brackets(t, text, budget, low, high)
    ensures var k := Cut(t, text, budget, low, high); Brackets(t, text, budget, k, k)
    decreases high - low
  {
    if low < high {
      var midpoint := (low + high + 1) / 2;
      if Fits(t, text, budget, midpoint) {
        CutIsBoundary(t, text, budget, midpoint, high);
      } else {
        CutIsBoundary(t, text, budget, low, midpoint - 1);
      }
    }
  }

  /** The escaped prefix keeps to its budget. */
  lemma EscapedPrefixFits(t: Text, text: string, budget: nat)
    requires EscapesEmpty(t)
    ensures |EscapedPrefix(t, text, budget)| <= budget
  {
    CutIsBoundary(t, text, budget, 0, |text|);
    assert text[..0] == "";
  }

  ghost predicate MonotoneOn(t: Text, text: string) {
    forall i: nat, j: nat :: i <= j <= |text| ==> |Fragment(t, text[..i])| <= |Fragment(t, text[..j])|
  }

  /** When escaped length grows with the prefix, no longer prefix fits. */
  lemma CutIsLongest(t: Text, text: string, budget: nat, k: nat)
    requires MonotoneOn(t, text)
    requires Cut(t, text, budget, 0, |text|) < k <= |text|
    ensures !Fits(t, text, budget, k)
  {
    CutIsBoundary(t, text, budget, 0, |text|);
    var cut := Cut(t, text, budget, 0, |text|);
    assert !Fits(t, text, budget, cut + 1);
    assert |Fragment(t, text[..cut + 1])| <= |Fragment(t, text[..k])|;
  }

  /** The backslashes a text starts with. */
  function Backslashes(s: string): (n: nat)
    ensures n <= |s|
  {
    if s == "" || s[0] != '\\' then 0 else 1 + Backslashes(s[1..])
  }

  /** What can follow the bracket that opens a tag. */
  predicate IsTagStart(c: char) {
    'a' <= c <= 'z' || c == '#' || c == '/' || c == '@'
  }

  /** A bracket that closes a tag, with no further opening bracket before it. */
  predicate ClosesTag(s: string) {
    s != "" && s[0] != '[' && (s[0] == ']' || ClosesTag(s[1..]))
  }

  /**
   * Markup escaping of a text that starts with backslashes: before a tag that is completed the backslashes are
   * doubled and one is added; elsewhere they stay.
   */
  function EscapeFirstTag(text: string): string {
    var n := Backslashes(text);
    if n + 2 <= |text| && text[n] == '[' && IsTagStart(text[n + 1]) && ClosesTag(text[n + 2..])
    then text[..n] + text[..n] + "\\" + text[n..] else text
  }

  /** Three backslashes, then a tag that another bracket keeps from being completed. */
  const BROKEN_TAG: string := "\\\\\\[a[123"

  lemma FragmentOfTag(t: Text, k: nat)
    requires t.escape == EscapeFirstTag && k <= 9
    ensures |Fragment(t, BROKEN_TAG[..k])| == if k == 5 then 9 else k
  {
    var prefix := BROKEN_TAG[..k];
    var text := prefix + "]";
    assert |BROKEN_TAG| == 9;
    var n := if k < 3 then k else 3;
    BackslashRun(text, n);
    if k == 5 {
      assert text[5..] == "]" && ClosesTag("]");
    } else if k > 5 {
      assert text[5..][0] == '[';
    }
  }

  lemma {:induction false} BackslashRun(s: string, n: nat)
    requires n <= |s| && (forall i :: 0 <= i < n ==> s[i] == '\\') && (n < |s| ==> s[n] != '\\')
    ensures Backslashes(s) == n
  {
    if n > 0 {
      BackslashRun(s[1..], n - 1);
    }
  }

  /**
   * Without monotonicity a longer prefix may fit: the completed tag takes nine characters, the text up to the
   * second bracket and beyond takes fewer, and a budget of eight cuts before the tag.
   */
  lemma CutMayMissLonger(t: Text)
    requires t.escape == EscapeFirstTag
    ensures EscapesEmpty(t)
    ensures Fits(t, BROKEN_TAG, 8, 8) && !Fits(t, BROKEN_TAG, 8, 9)
    ensures Cut(t, BROKEN_TAG, 8, 0, 9) == 4
  {
    var text := BROKEN_TAG;
    assert text[..0] == "";
    forall k: nat | k <= 9
      ensures |Fragment(t, text[..k])| == if k == 5 then 9 else k
    {
      FragmentOfTag(t, k);
    }
    assert !Fits(t, text, 8, 5) && Fits(t, text, 8, 2) && Fits(t, text, 8, 3) && Fits(t, text, 8, 4);
    assert Cut(t, text, 8, 0, 9) == Cut(t, text, 8, 0, 4) == Cut(t, text, 8, 2, 4) == Cut(t, text, 8, 3, 4);
  }

  // ---------------------------------------------------------------------------
  // One sanitized message
  // ---------------------------------------------------------------------------

  function Clean(t: Text, message: string): string {
    var truncated := |message| > PUBLIC_ERROR_SCAN_CHARS;
    t.clean(if truncated then message[..PUBLIC_ERROR_SCAN_CHARS] else message, truncated)
  }

  function Sanitized(t: Text, message: string, maxChars: int): string {
    if maxChars <= 0 then ""
    else
      var escaped := Fragment(t, Clean(t, message));
      if |escaped| <= maxChars then escaped
      else RStrip(EscapedPrefix(t, Clean(t, message), maxChars - 1), IsSpace) + "…"
  }

  method SanitizePublicError(t: Text, message: string, maxChars: int) returns (r: string)
    ensures r == Sanitized(t, message, maxChars)
  {
    if maxChars <= 0 {
      return "";
    }
    var truncated := |message| > PUBLIC_ERROR_SCAN_CHARS;
    var raw := if truncated then message[..PUBLIC_ERROR_SCAN_CHARS] else message;
    var sanitized := t.clean(raw, truncated);
    var escaped := Fragment(t, sanitized);
    if |escaped| <= maxChars {
      return escaped;
    }
    var kept := EscapePrefix(t, sanitized, maxChars - 1);
    r := RStrip(kept, IsSpace) + "…";
  }

  /** At most `maxChars` characters, and nothing is cut from a text that fits. */
  lemma SanitizedIsBounded(t: Text, message: string, maxChars: int)
    requires EscapesEmpty(t)
    ensures |Sanitized(t, message, maxChars)| <= if maxChars <= 0 then 0 else maxChars
    ensures 0 < |Fragment(t, Clean(t, message))| <= maxChars ==>
      Sanitized(t, message, maxChars) == Fragment(t, Clean(t, message))
  {
    if maxChars > 0 {
      EscapedPrefixFits(t, Clean(t, message), maxChars - 1);
    }
  }

  /** `shown` is the escaped first `k` characters of `text`, less the white space they end in, and an ellipsis. */
  ghost predicate IsCutAt(t: Text, text: string, k: nat, shown: string)
    requires k <= |text|
  {
    var fragment := Fragment(t, text[..k]);
    exists n: nat :: n <= |fragment| && shown == fragment[..n] + "…"
      && (forall i :: n <= i < |fragment| ==> IsSpace(fragment[i]))
      && (n > 0 ==> !IsSpace(fragment[n - 1]))
  }

  /** The cut fits in `budget`, or is empty; one more character does not fit, nor does any longer prefix when
   * escaped length grows with the prefix. */
  ghost predicate IsBestCut(t: Text, text: string, k: nat, budget: nat)
    requires k < |text|
  {
    && (k == 0 || |Fragment(t, text[..k])| <= budget)
    && |Fragment(t, text[..k + 1])| > budget
    && (MonotoneOn(t, text) ==> forall j :: k < j <= |text| ==> |Fragment(t, text[..j])| > budget)
  }

  /** `shown` is a best cut of `text`. */
  ghost predicate IsShortened(t: Text, text: string, budget: nat, shown: string) {
    exists k: nat :: k < |text| && IsCutAt(t, text, k, shown) && IsBestCut(t, text, k, budget)
  }

  lemma CutIsBest(t: Text, text: string, budget: nat)
    requires |Fragment(t, text)| > budget && EscapesEmpty(t)
    ensures Cut(t, text, budget, 0, |text|) < |text|
    ensures IsBestCut(t, text, Cut(t, text, budget, 0, |text|), budget)
  {
    var k := Cut(t, text, budget, 0, |text|);
    CutIsBoundary(t, text, budget, 0, |text|);
    assert text[..0] == "" && text[..|text|] == text;
    if MonotoneOn(t, text) {
      forall j | k < j <= |text|
        ensures |Fragment(t, text[..j])| > budget
      {
        CutIsLongest(t, text, budget, j);
      }
    }
  }

  lemma StrippedIsCut(t: Text, text: string, k: nat)
    requires k <= |text|
    ensures IsCutAt(t, text, k, RStrip(Fragment(t, text[..k]), IsSpace) + "…")
  {
    var fragment := Fragment(t, text[..k]);
    var kept := RStrip(fragment, IsSpace);
    assert kept == fragment[..|kept|];
  }

  /**
   * What a message becomes: its first 8192 characters are sanitized; nothing of it is shown without room; it is
   * shown whole if it fits, and is shortened otherwise.
   */
  lemma SanitizedShows(t: Text, message: string, maxChars: int, text: string)
    requires EscapesEmpty(t)
    requires text == if |message| > 8192 then t.clean(message[..8192], true) else t.clean(message, false)
    ensures var shown := Sanitized(t, message, maxChars);
      && (maxChars <= 0 ==> shown == "")
      && (0 < maxChars && |Fragment(t, text)| <= maxChars ==> shown == Fragment(t, text))
      && (0 < maxChars < |Fragment(t, text)| ==> IsShortened(t, text, maxChars - 1, shown))
  {
    assert text == Clean(t, message);
    if 0 < maxChars < |Fragment(t, text)| {
      CutIsBest(t, text, maxChars - 1);
      StrippedIsCut(t, text, Cut(t, text, maxChars - 1, 0, |text|));
    }
  }

  ghost predicate EscapesNothing(t: Text) {
    forall s :: Fragment(t, s) == s
  }

  lemma TrailingSpaceIsSpace(s: string, n: nat)
    ensures n < |s| && (forall i :: n <= i < |s| ==> IsSpace(s[i])) ==> exists i :: 0 <= i < |s| && IsSpace(s[i])
  {
    if n < |s| && forall i :: n <= i < |s| ==> IsSpace(s[i]) {
      assert IsSpace(s[n]);
    }
  }

  /** Where there is no white space none is dropped. */
  lemma UnspacedCut(t: Text, text: string, k: nat, shown: string)
    requires EscapesNothing(t) && k <= |text| && IsCutAt(t, text, k, shown)
    requires forall i :: 0 <= i < |text| ==> !IsSpace(text[i])
    ensures shown == text[..k] + "…"
  {
    var fragment := Fragment(t, text[..k]);
    assert fragment == text[..k];
    var n: nat :| n <= |fragment| && shown == fragment[..n] + "…"
      && (forall i :: n <= i < |fragment| ==> IsSpace(fragment[i])) && (n > 0 ==> !IsSpace(fragment[n - 1]));
    TrailingSpaceIsSpace(fragment, n);
    assert n == k;
  }

  lemma BestPlainCut(t: Text, text: string, k: nat, budget: nat)
    requires EscapesNothing(t) && k < |text| && IsBestCut(t, text, k, budget) && budget < |text|
    ensures k == budget
  {
    assert Fragment(t, text[..k]) == text[..k] && Fragment(t, text[..k + 1]) == text[..k + 1];
  }

  lemma ShortenedPlainText(t: Text, text: string, budget: nat, shown: string)
    requires EscapesNothing(t) && IsShortened(t, text, budget, shown) && budget < |text|
    requires forall i :: 0 <= i < |text| ==> !IsSpace(text[i])
    ensures shown == text[..budget] + "…"
  {
    var k: nat :| k < |text| && IsCutAt(t, text, k, shown) && IsBestCut(t, text, k, budget);
    BestPlainCut(t, text, k, budget);
    UnspacedCut(t, text, k, shown);
  }

  /** A text that needs no escape and holds no white space: as much of it as there is room for, and an ellipsis. */
  lemma PlainTextIsCut(t: Text, message: string, maxChars: nat)
    requires EscapesNothing(t) && |message| <= 8192 && t.clean(message, false) == message
    requires 0 < maxChars < |message| && forall i :: 0 <= i < |message| ==> !IsSpace(message[i])
    ensures Sanitized(t, message, maxChars) == message[..maxChars - 1] + "…"
  {
    SanitizedShows(t, message, maxChars, message);
    assert |Fragment(t, message)| == |message|;
    ShortenedPlainText(t, message, maxChars - 1, Sanitized(t, message, maxChars));
  }

  // ---------------------------------------------------------------------------
  // The actionable tool-failure message
  // ---------------------------------------------------------------------------

  datatype PublicToolFailure = PublicToolFailure(reason: string, remediation: seq<string>, correlationId: string)

  predicate EndsWith(s: string, end: string) {
    |end| <= |s| && s[|s| - |end|..] == end
  }

  function IsDot(c: char): bool { c == '.' }

  function Remediation(t: Text, steps: seq<string>): seq<string> {
    var text := if steps == [] then "" else Sanitized(t, Join(" -> ", steps), REMEDIATION_CHARS);
    if text == "" then [] else ["Remediation: " + text]
  }

  function Correlation(t: Text, id: string): seq<string> {
    var text := if id == "" then "" else Sanitized(t, id, CORRELATION_CHARS);
    if text == "" then [] else ["correlation_id=" + text]
  }

  /** The part of the message an operator acts on; the reason has no say in it. */
  function Suffix(t: Text, steps: seq<string>, id: string): string {
    Join(". ", Remediation(t, steps) + Correlation(t, id))
  }

  function ReasonBudget(f: PublicToolFailure, suffix: string): int {
    MAX_PUBLIC_ERROR_CHARS - |TOOL_FAILURE_PREFIX| - |suffix| - if f.reason != "" && suffix != "" then 2 else 0
  }

  function Detail(reason: string, suffix: string): string {
    var detail := Join(". ", NonEmpty([reason, suffix]));
    if detail == "" then "Tool execution failed." else detail
  }

  function Message(t: Text, f: PublicToolFailure): string {
    var suffix := Suffix(t, f.remediation, f.correlationId);
    var reason := Sanitized(t, RStrip(f.reason, IsDot), ReasonBudget(f, suffix));
    TOOL_FAILURE_PREFIX + Detail(reason, suffix)
  }

  method FormatActionableToolFailure(t: Text, f: PublicToolFailure) returns (message: string)
    ensures message == Message(t, f)
  {
    var suffix := FormatSuffix(t, f);
    var reasonChars := RoomForReason(f, suffix);
    var reason := SanitizePublicError(t, RStrip(f.reason, IsDot), reasonChars);
    var detail := JoinDetail(reason, suffix);
    message := TOOL_FAILURE_PREFIX + detail;
  }

  /** What the prefix, the suffix and the separator leave of the message. */
  method RoomForReason(f: PublicToolFailure, suffix: string) returns (reasonChars: int)
    ensures reasonChars == ReasonBudget(f, suffix)
  {
    var separatorChars := if f.reason != "" && suffix != "" then 2 else 0;
    reasonChars := MAX_PUBLIC_ERROR_CHARS - |TOOL_FAILURE_PREFIX| - |suffix| - separatorChars;
  }

  method JoinDetail(reason: string, suffix: string) returns (detail: string)
    ensures detail == Detail(reason, suffix)
  {
    detail := Join(". ", NonEmpty([reason, suffix]));
    if detail == "" {
      detail := "Tool execution failed.";
    }
  }

  /** The first half: what the operator can do, and the correlation id. */
  method FormatSuffix(t: Text, f: PublicToolFailure) returns (suffix: string)
    ensures suffix == Suffix(t, f.remediation, f.correlationId)
  {
    var parts: seq<string> := [];
    if f.remediation != [] {
      var remediation := SanitizePublicError(t, Join(" -> ", f.remediation), REMEDIATION_CHARS);
      if remediation != "" {
        parts := parts + ["Remediation: " + remediation];
      }
    }
    assert parts == Remediation(t, f.remediation);
    if f.correlationId != "" {
      var correlationId := SanitizePublicError(t, f.correlationId, CORRELATION_CHARS);
      if correlationId != "" {
        parts := parts + ["correlation_id=" + correlationId];
      }
    }
    assert parts == Remediation(t, f.remediation) + Correlation(t, f.correlationId);
    suffix := Join(". ", parts);
  }

  lemma JoinOfTwo(a: string, b: string)
    ensures Join(". ", NonEmpty([a, b])) ==
      if a == "" then b else if b == "" then a else a + ". " + b
  {
    assert [a, b][1..] == [b];
    assert NonEmpty([b]) == if b == "" then [] else [b];
    if a != "" && b != "" {
      assert NonEmpty([a, b]) == [a, b];
    }
  }

  /** The suffix has a bound of its own, and contains each sanitized part whole. */
  lemma SuffixIsBounded(t: Text, steps: seq<string>, id: string)
    requires EscapesEmpty(t)
    ensures |Suffix(t, steps, id)| <= 2078
    ensures var r, c := Remediation(t, steps), Correlation(t, id);
      && |r| <= 1 && |c| <= 1
      && (r != [] ==> r[0] <= Suffix(t, steps, id))
      && (c != [] ==> EndsWith(Suffix(t, steps, id), c[0]))
  {
    SanitizedIsBounded(t, Join(" -> ", steps), REMEDIATION_CHARS);
    SanitizedIsBounded(t, id, CORRELATION_CHARS);
    var r, c := Remediation(t, steps), Correlation(t, id);
    if r != [] && c != [] {
      assert r + c == [r[0], c[0]] && [r[0], c[0]][1..] == [c[0]];
      assert Join(". ", [c[0]]) == c[0];
      assert Suffix(t, steps, id) == (r[0] + ". ") + c[0];
    } else if r != [] {
      assert r + c == r;
    } else {
      assert r + c == c;
    }
  }

  lemma JoinOfLabels(r: seq<string>, c: seq<string>)
    requires |r| <= 1 && |c| <= 1
    ensures Join(". ", r + c) ==
      if r == [] && c == [] then "" else if c == [] then r[0] else if r == [] then c[0] else r[0] + ". " + c[0]
  {
    if r != [] && c != [] {
      assert r + c == [r[0], c[0]] && [r[0], c[0]][1..] == [c[0]];
    } else if r != [] {
      assert r + c == r;
    } else {
      assert r + c == c;
    }
  }

  /**
   * What the suffix says: the steps joined by arrows, then the correlation id, each after its label and within its
   * own limit, and only if something of it is left.
   */
  lemma SuffixSays(t: Text, steps: seq<string>, id: string)
    ensures
      var r := if steps == [] then "" else Sanitized(t, Join(" -> ", steps), 1536);
      var c := if id == "" then "" else Sanitized(t, id, 512);
      Suffix(t, steps, id) ==
        if r == "" && c == "" then "" else if c == "" then "Remediation: " + r
        else if r == "" then "correlation_id=" + c else "Remediation: " + r + ". " + ("correlation_id=" + c)
  {
    JoinOfLabels(Remediation(t, steps), Correlation(t, id));
  }

  /**
   * Exactly when the message is over the limit: the reason is empty, so no room is set aside for a separator, and
   * the sanitizer makes a text out of it that needs one.
   */
  lemma MessageIsBounded(t: Text, f: PublicToolFailure)
    requires EscapesEmpty(t)
    ensures var suffix := Suffix(t, f.remediation, f.correlationId);
      |Message(t, f)| > MAX_PUBLIC_ERROR_CHARS <==>
        f.reason == "" && suffix != "" && |Sanitized(t, "", 4082 - |suffix|)| > 4080 - |suffix|
    ensures |Message(t, f)| > MAX_PUBLIC_ERROR_CHARS ==> Clean(t, "") != ""
  {
    var suffix := Suffix(t, f.remediation, f.correlationId);
    var stripped := RStrip(f.reason, IsDot);
    SuffixIsBounded(t, f.remediation, f.correlationId);
    SanitizedIsBounded(t, stripped, ReasonBudget(f, suffix));
    MessageLength(t, f, suffix, Sanitized(t, stripped, ReasonBudget(f, suffix)));
  }

  lemma MessageLength(t: Text, f: PublicToolFailure, suffix: string, reason: string)
    requires suffix == Suffix(t, f.remediation, f.correlationId)
    requires reason == Sanitized(t, RStrip(f.reason, IsDot), ReasonBudget(f, suffix))
    ensures |Message(t, f)| == 14 +
      (if reason == "" && suffix == "" then 22
       else |reason| + |suffix| + if reason != "" && suffix != "" then 2 else 0)
  {
    JoinOfTwo(reason, suffix);
  }

  /** Whatever the reason, the message starts with the prefix, says something, and ends with the whole suffix. */
  lemma MessageKeepsSuffix(t: Text, f: PublicToolFailure)
    ensures TOOL_FAILURE_PREFIX < Message(t, f)
    ensures EndsWith(Message(t, f), Suffix(t, f.remediation, f.correlationId))
      || Suffix(t, f.remediation, f.correlationId) == ""
  {
    var suffix := Suffix(t, f.remediation, f.correlationId);
    JoinOfTwo(Sanitized(t, RStrip(f.reason, IsDot), ReasonBudget(f, suffix)), suffix);
    JoinOfTwo("", suffix);
    var detail := Join(". ", NonEmpty([Sanitized(t, RStrip(f.reason, IsDot), ReasonBudget(f, suffix)), suffix]));
    if suffix != "" {
      assert EndsWith(detail, suffix);
      EndsWithTransitive(TOOL_FAILURE_PREFIX, detail, suffix);
    }
  }

  lemma EndsWithTransitive(head: string, detail: string, suffix: string)
    requires EndsWith(detail, suffix)
    ensures EndsWith(head + detail, suffix)
  {
    assert head + detail == (head + detail[..|detail| - |suffix|]) + suffix;
  }

  /** The reason is shown whole whenever the whole message has room for it. */
  lemma ReasonIsCutOnlyForRoom(t: Text, f: PublicToolFailure)
    requires EscapesEmpty(t) && f.reason != ""
    ensures
      var suffix := Suffix(t, f.remediation, f.correlationId);
      var reason := Fragment(t, Clean(t, RStrip(f.reason, IsDot)));
      var whole := TOOL_FAILURE_PREFIX + (if suffix == "" then reason else reason + ". " + suffix);
      reason != "" && |whole| <= MAX_PUBLIC_ERROR_CHARS ==> Message(t, f) == whole
  {
    var suffix := Suffix(t, f.remediation, f.correlationId);
    var stripped := RStrip(f.reason, IsDot);
    SanitizedIsBounded(t, stripped, ReasonBudget(f, suffix));
    JoinOfTwo(Fragment(t, Clean(t, stripped)), suffix);
  }

  lemma FullStopStrips(reason: string)
    ensures RStrip(reason + ".", IsDot) == RStrip(reason, IsDot)
    ensures reason == "" || reason[|reason| - 1] != '.' ==> RStrip(reason, IsDot) == reason
  {
    assert (reason + ".")[..|reason|] == reason;
  }

  /** A reason shows as it does with one more full stop; what ends in none is not touched. */
  lemma FullStopsAreDropped(t: Text, f: PublicToolFailure, dotted: PublicToolFailure)
    requires f.reason != "" && dotted == f.(reason := f.reason + ".")
    ensures Message(t, dotted) == Message(t, f)
    ensures f.reason[|f.reason| - 1] != '.' ==> RStrip(f.reason, IsDot) == f.reason
  {
    FullStopStrips(f.reason);
    var suffix := Suffix(t, f.remediation, f.correlationId);
    assert ReasonBudget(dotted, suffix) == ReasonBudget(f, suffix);
  }

  /** A failure that has nothing to say. */
  lemma NothingToSay(t: Text, f: PublicToolFailure)
    requires Sanitized(t, RStrip(f.reason, IsDot), 4082) == "" && Suffix(t, f.remediation, f.correlationId) == ""
    ensures Message(t, f) == "[TOOL FAILED] " + "Tool execution failed."
  {
    JoinOfTwo("", "");
  }

  /** The room for the reason of a failure that has one. */
  lemma RoomOfReason(t: Text, f: PublicToolFailure)
    requires EscapesEmpty(t) && f.reason != ""
    ensures
      var suffix := Suffix(t, f.remediation, f.correlationId);
      ReasonBudget(f, suffix) == 4082 - |suffix| - (if suffix == "" then 0 else 2) > 0
  {
    SuffixIsBounded(t, f.remediation, f.correlationId);
  }

  /** A message that says `reason`. */
  ghost predicate Says(message: string, reason: string, suffix: string) {
    message == "[TOOL FAILED] " + (if suffix == "" then reason else reason + ". " + suffix)
  }

  lemma MessageOfReason(t: Text, f: PublicToolFailure, suffix: string, reason: string)
    requires suffix == Suffix(t, f.remediation, f.correlationId)
    requires reason == Sanitized(t, RStrip(f.reason, IsDot), ReasonBudget(f, suffix)) && reason != ""
    ensures Says(Message(t, f), reason, suffix)
  {
    JoinOfTwo(reason, suffix);
  }

  /** `message` says `text` shortened to `room` characters. */
  ghost predicate SaysShortened(t: Text, text: string, room: nat, message: string, suffix: string)
    requires room > 0
  {
    exists shown :: IsShortened(t, text, room - 1, shown) && Says(message, shown, suffix)
  }

  lemma ShortenedIsSaid(t: Text, text: string, room: nat, message: string, suffix: string, shown: string)
    requires room > 0 && IsShortened(t, text, room - 1, shown) && Says(message, shown, suffix)
    ensures SaysShortened(t, text, room, message, suffix)
  {
  }

  lemma ShortenedIsSomething(t: Text, text: string, budget: nat, shown: string)
    requires IsShortened(t, text, budget, shown)
    ensures shown != ""
  {
  }

  /**
   * A reason that is too long for the room the suffix leaves is shortened, and the rest of the message is as it
   * would be without it.
   */
  lemma LongReasonIsShortened(t: Text, f: PublicToolFailure, text: string, suffix: string, room: int)
    requires EscapesEmpty(t) && f.reason != "" && suffix == Suffix(t, f.remediation, f.correlationId)
    requires room == 4082 - |suffix| - if suffix == "" then 0 else 2
    requires var stripped := RStrip(f.reason, IsDot);
      text == if |stripped| > 8192 then t.clean(stripped[..8192], true) else t.clean(stripped, false)
    ensures room > 0
    ensures |Fragment(t, text)| > room ==> SaysShortened(t, text, room, Message(t, f), suffix)
  {
    RoomOfReason(t, f);
    if |Fragment(t, text)| > room {
      ReasonIsShortened(t, f, text, suffix);
    }
  }

  lemma ReasonIsShortened(t: Text, f: PublicToolFailure, text: string, suffix: string)
    requires EscapesEmpty(t) && suffix == Suffix(t, f.remediation, f.correlationId)
    requires text == Clean(t, RStrip(f.reason, IsDot))
    requires 0 < ReasonBudget(f, suffix) < |Fragment(t, text)|
    ensures SaysShortened(t, text, ReasonBudget(f, suffix), Message(t, f), suffix)
  {
    var room := ReasonBudget(f, suffix);
    var shown := Sanitized(t, RStrip(f.reason, IsDot), room);
    SanitizedShows(t, RStrip(f.reason, IsDot), room, text);
    ShortenedIsSomething(t, text, room - 1, shown);
    MessageOfReason(t, f, suffix, shown);
    ShortenedIsSaid(t, text, room, Message(t, f), suffix, shown);
  }
}
