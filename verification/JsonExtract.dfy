/** Recovering a JSON object from model text: `response_json.py`. */
module JsonExtract {
  import opened Common

  // ---------------------------------------------------------------------------
  // The scanner
  // ---------------------------------------------------------------------------

  /** Scanner state: brace depth outside strings, and where in a string it is. */
  datatype Scan = Scan(depth: int, inString: bool, escape: bool)

  const START := Scan(0, false, false)

  function Step(st: Scan, ch: char): Scan {
    if st.inString then
      if st.escape then st.(escape := false)
      else if ch == '\\' then st.(escape := true)
      else if ch == '"' then st.(inString := false)
      else st
    else if ch == '"' then st.(inString := true)
    else if ch == '{' then st.(depth := st.depth + 1)
    else if ch == '}' then st.(depth := st.depth - 1)
    else st
  }

  /** The state after reading all of `s`. */
  function After(st: Scan, s: string): Scan
    decreases |s|
  {
    if s == [] then st else After(Step(st, s[0]), s[1..])
  }

  /** The first index of `c`, or the length when there is none. */
  function Find(text: string, c: char): (at: nat)
    ensures at <= |text|
    ensures forall i :: 0 <= i < at ==> text[i] != c
    ensures at < |text| ==> text[at] == c
  {
    if text == [] || text[0] == c then 0 else 1 + Find(text[1..], c)
  }

  function FindBrace(text: string): (start: nat)
    ensures start <= |text|
    ensures forall i :: 0 <= i < start ==> text[i] != '{'
    ensures start < |text| ==> text[start] == '{'
  {
    Find(text, '{')
  }

  /** `text[start..end]` is brace-balanced outside strings, and no shorter segment from `start` is. */
  ghost predicate IsShortestBalanced(text: string, start: nat, end: nat) {
    && start < end <= |text|
    && After(START, text[start..end]).depth == 0
    && forall e :: start < e < end ==> After(START, text[start..e]).depth != 0
  }

  lemma {:induction false} AfterConcat(st: Scan, a: string, b: string)
    ensures After(st, a + b) == After(After(st, a), b)
    decreases |a|
  {
    if a == [] {
      assert a + b == b;
    } else {
      assert (a + b)[1..] == a[1..] + b;
      AfterConcat(Step(st, a[0]), a[1..], b);
    }
  }

  lemma AfterOneMore(text: string, start: nat, end: nat)
    requires start <= end < |text|
    ensures After(START, text[start..end + 1]) == Step(After(START, text[start..end]), text[end])
  {
    assert text[start..end + 1] == text[start..end] + [text[end]];
    AfterConcat(START, text[start..end], [text[end]]);
    assert [text[end]][1..] == [];
  }

  /** The first end after `idx` at which `text[start..end]` is balanced. */
  function BalancedEnd(text: string, start: nat, idx: nat): (end: Option<nat>)
    requires start <= idx <= |text|
    decreases |text| - idx
  {
    if idx == |text| then None
    else if After(START, text[start..idx + 1]).depth == 0 then Some(idx + 1)
    else BalancedEnd(text, start, idx + 1)
  }

  /** The extracted segment, as a function of the text. */
  function Extract(text: string): Option<string> {
    match BalancedEnd(text, FindBrace(text), FindBrace(text))
    case None => None
    case Some(end) => if FindBrace(text) <= end <= |text| then Some(text[FindBrace(text)..end]) else None
  }

  lemma {:induction false} BalancedEndIsShortest(text: string, start: nat, idx: nat)
    requires start <= idx <= |text|
    requires forall e :: start < e <= idx ==> After(START, text[start..e]).depth != 0
    ensures forall end: nat :: IsShortestBalanced(text, start, end) <==> BalancedEnd(text, start, idx) == Some(end)
    decreases |text| - idx
  {
    if idx < |text| && After(START, text[start..idx + 1]).depth != 0 {
      BalancedEndIsShortest(text, start, idx + 1);
    }
  }

  /** Extraction returns the unique shortest balanced segment from the first brace, and `None` means there is none. */
  lemma ExtractIsShortest(text: string, end: nat)
    ensures IsShortestBalanced(text, FindBrace(text), end) ==> Extract(text) == Some(text[FindBrace(text)..end])
    ensures Extract(text).None? ==> !IsShortestBalanced(text, FindBrace(text), end)
    ensures Extract(text).Some? ==>
      var last := FindBrace(text) + |Extract(text).value|;
      IsShortestBalanced(text, FindBrace(text), last) && Extract(text).value == text[FindBrace(text)..last]
  {
    BalancedEndIsShortest(text, FindBrace(text), FindBrace(text));
  }

  /** No segment from `start` up to `idx` is balanced. */
  ghost predicate NotYetBalanced(text: string, start: nat, idx: nat)
    requires start <= idx <= |text|
  {
    forall e :: start < e <= idx ==> After(START, text[start..e]).depth != 0
  }

  lemma NeverBalanced(text: string)
    requires NotYetBalanced(text, FindBrace(text), |text|)
    ensures Extract(text).None?
  {
    BalancedEndIsShortest(text, FindBrace(text), FindBrace(text));
    if Extract(text).Some? {
      ExtractIsShortest(text, 0);
    }
  }

  lemma BalancedNow(text: string, idx: nat)
    requires FindBrace(text) <= idx < |text| && NotYetBalanced(text, FindBrace(text), idx)
    requires After(START, text[FindBrace(text)..idx + 1]).depth == 0
    ensures Extract(text) == Some(text[FindBrace(text)..idx + 1])
  {
    assert IsShortestBalanced(text, FindBrace(text), idx + 1);
    ExtractIsShortest(text, idx + 1);
  }

  lemma ScanStart(text: string)
    requires FindBrace(text) < |text|
    ensures var st := After(START, text[FindBrace(text)..FindBrace(text)]); st == START
  {
    assert text[FindBrace(text)..FindBrace(text)] == [];
  }

  /** `_extract_json_from_text`. */
  method ExtractJson(text: string) returns (found: Option<string>)
    ensures found == Extract(text)
  {
    var start := FindBrace(text);
    if start == |text| {
      NeverBalanced(text);
      return None;
    }
    var depth := 0;
    var inString := false;
    var escape := false;
    ScanStart(text);
    for idx := start to |text|
      invariant Scan(depth, inString, escape) == After(START, text[start..idx])
      invariant if idx == start then depth == 0 && !inString else depth >= 1
      invariant NotYetBalanced(text, start, idx)
    {
      var ch := text[idx];
      AfterOneMore(text, start, idx);
      if inString {
        if escape {
          escape := false;
        } else if ch == '\\' {
          escape := true;
        } else if ch == '"' {
          inString := false;
        }
        continue;
      }
      if ch == '"' {
        inString := true;
      } else if ch == '{' {
        depth := depth + 1;
      } else if ch == '}' {
        depth := depth - 1;
        if depth == 0 {
          BalancedNow(text, idx);
          return Some(text[start..idx + 1]);
        }
      }
    }
    NeverBalanced(text);
    return None;
  }

  // ---------------------------------------------------------------------------
  // JSON texts (RFC 8259, sections 2 to 7)
  // ---------------------------------------------------------------------------

  /** One character of a string, or a backslash and the character it escapes (`\uXXXX` is `\u` and four more). */
  datatype Piece = Plain(c: char) | Escaped(c: char)

  /**
   * A concrete syntax tree: a value together with the white space of one way to write it.  `Atom`
   * stands for numbers, `true`, `false` and `null`.
   */
  datatype Value =
    | Atom(token: string)
    | Str(pieces: seq<Piece>)
    | Arr(blank: string, elems: Elems)
    | Obj(blank: string, members: Members)

  datatype Elems = NoElems | Elem(before: string, value: Value, after: string, rest: Elems)

  datatype Members =
    | NoMembers
    | Member(before: string, name: seq<Piece>, afterName: string, beforeValue: string, value: Value, after: string,
             rest: Members)

  function PrintPieces(pieces: seq<Piece>): string {
    if pieces == [] then []
    else (match pieces[0] case Plain(c) => [c] case Escaped(c) => ['\\', c]) + PrintPieces(pieces[1..])
  }

  lemma {:induction false} PrintPiecesOfConcat(a: seq<Piece>, b: seq<Piece>)
    ensures PrintPieces(a + b) == PrintPieces(a) + PrintPieces(b)
  {
    if a == [] {
      assert a + b == b;
    } else {
      assert (a + b)[1..] == a[1..] + b;
      PrintPiecesOfConcat(a[1..], b);
    }
  }

  function Quote(pieces: seq<Piece>): string {
    "\"" + PrintPieces(pieces) + "\""
  }

  /** The text of a value. */
  function Print(v: Value): string {
    match v
    case Atom(token) => token
    case Str(pieces) => Quote(pieces)
    case Arr(blank, elems) => "[" + (if elems.NoElems? then blank else PrintElems(elems)) + "]"
    case Obj(blank, members) => "{" + Body(blank, members) + "}"
  }

  function Body(blank: string, members: Members): string
    decreases members, 1
  {
    if members.NoMembers? then blank else PrintMembers(members)
  }

  function PrintElems(es: Elems): string {
    match es
    case NoElems => ""
    case Elem(before, value, after, rest) =>
      before + Print(value) + after + (if rest.NoElems? then "" else "," + PrintElems(rest))
  }

  function PrintMembers(ms: Members): string
    decreases ms, 0
  {
    match ms
    case NoMembers => ""
    case Member(before, name, afterName, beforeValue, value, after, rest) =>
      before + Quote(name) + afterName + ":" + beforeValue + Print(value) + after
      + (if rest.NoMembers? then "" else "," + PrintMembers(rest))
  }

  predicate IsWs(s: string) {
    forall i :: 0 <= i < |s| ==> s[i] in " \t\n\r"
  }

  predicate IsAtomChar(c: char) {
    '0' <= c <= '9' || 'a' <= c <= 'z' || 'A' <= c <= 'Z' || c == '+' || c == '-' || c == '.'
  }

  predicate IsAtom(token: string) {
    token != "" && forall i :: 0 <= i < |token| ==> IsAtomChar(token[i])
  }

  /** No unescaped quote, backslash or control character inside a string. */
  predicate IsPiece(p: Piece) {
    match p
    case Plain(c) => c != '"' && c != '\\' && c >= ' '
    case Escaped(c) => c >= ' '
  }

  predicate ArePieces(ps: seq<Piece>) {
    forall i :: 0 <= i < |ps| ==> IsPiece(ps[i])
  }

  predicate WellFormed(v: Value) {
    match v
    case Atom(token) => IsAtom(token)
    case Str(pieces) => ArePieces(pieces)
    case Arr(blank, elems) => IsWs(blank) && WellFormedElems(elems)
    case Obj(blank, members) => IsWs(blank) && WellFormedMembers(members)
  }

  predicate WellFormedElems(es: Elems) {
    match es
    case NoElems => true
    case Elem(before, value, after, rest) => IsWs(before) && WellFormed(value) && IsWs(after) && WellFormedElems(rest)
  }

  predicate WellFormedMembers(ms: Members) {
    match ms
    case NoMembers => true
    case Member(before, name, afterName, beforeValue, value, after, rest) =>
      && IsWs(before) && ArePieces(name) && IsWs(afterName) && IsWs(beforeValue)
      && WellFormed(value) && IsWs(after) && WellFormedMembers(rest)
  }

  // ---------------------------------------------------------------------------
  // Scanning a printed value
  // ---------------------------------------------------------------------------

  /** The scanner is between tokens. */
  predicate IsOut(st: Scan) {
    st.depth >= 1 && !st.inString && !st.escape
  }

  /**
   * Reading `s` from `st` never closes the outermost brace, meets no newline inside a string and no
   * backtick outside one.
   */
  predicate Inside(st: Scan, s: string)
    decreases |s|
  {
    s == [] || (
      && (if st.inString then s[0] != '\n' else s[0] != '`')
      && Step(st, s[0]).depth >= 1
      && Inside(Step(st, s[0]), s[1..]))
  }

  /** `s` is read from any between-token state, and back to it. */
  ghost predicate IsNeutral(s: string) {
    forall st :: IsOut(st) ==> Inside(st, s) && After(st, s) == st
  }

  lemma {:induction false} InsideConcat(st: Scan, a: string, b: string)
    ensures Inside(st, a + b) <==> Inside(st, a) && Inside(After(st, a), b)
    decreases |a|
  {
    if a == [] {
      assert a + b == b;
    } else {
      assert (a + b)[1..] == a[1..] + b;
      InsideConcat(Step(st, a[0]), a[1..], b);
    }
  }

  lemma NeutralConcat(a: string, b: string)
    requires IsNeutral(a) && IsNeutral(b)
    ensures IsNeutral(a + b)
  {
    forall st | IsOut(st)
      ensures Inside(st, a + b) && After(st, a + b) == st
    {
      InsideConcat(st, a, b);
      AfterConcat(st, a, b);
    }
  }

  /** Characters that leave a between-token state alone. */
  predicate IsQuiet(c: char) {
    c != '"' && c != '{' && c != '}' && c != '`'
  }

  lemma {:induction false} QuietIsNeutral(s: string)
    requires forall i :: 0 <= i < |s| ==> IsQuiet(s[i])
    ensures IsNeutral(s)
  {
    if s != [] {
      assert forall i :: 0 <= i < |s[1..]| ==> s[1..][i] == s[i + 1];
      QuietIsNeutral(s[1..]);
      forall st | IsOut(st)
        ensures Inside(st, s) && After(st, s) == st
      {
        assert Step(st, s[0]) == st;
      }
    }
  }

  lemma WsIsNeutral(s: string)
    requires IsWs(s)
    ensures IsNeutral(s)
  {
    QuietIsNeutral(s);
  }

  lemma {:induction false} PiecesStayInString(st: Scan, pieces: seq<Piece>)
    requires ArePieces(pieces) && st.depth >= 1 && st.inString && !st.escape
    ensures Inside(st, PrintPieces(pieces)) && After(st, PrintPieces(pieces)) == st
    decreases |pieces|
  {
    if pieces != [] {
      var first := match pieces[0] case Plain(c) => [c] case Escaped(c) => ['\\', c];
      var rest := PrintPieces(pieces[1..]);
      PiecesStayInString(st, pieces[1..]);
      InsideConcat(st, first, rest);
      AfterConcat(st, first, rest);
      if pieces[0].Escaped? {
        assert first[1..] == [pieces[0].c] && first[1..][1..] == [];
        assert Inside(Step(st, '\\'), first[1..]);
        assert After(Step(st, '\\'), first[1..]) == st;
      } else {
        assert first[1..] == [];
      }
    }
  }

  lemma QuoteIsNeutral(pieces: seq<Piece>)
    requires ArePieces(pieces)
    ensures IsNeutral(Quote(pieces))
  {
    var body := PrintPieces(pieces);
    forall st | IsOut(st)
      ensures Inside(st, Quote(pieces)) && After(st, Quote(pieces)) == st
    {
      var inner := st.(inString := true);
      PiecesStayInString(inner, pieces);
      InsideConcat(inner, body, "\"");
      AfterConcat(inner, body, "\"");
      assert "\""[1..] == [];
      assert Quote(pieces)[0] == '"' && Quote(pieces)[1..] == body + "\"";
    }
  }

  /** A printed value is neutral for the scanner. */
  lemma {:induction false} ValueIsNeutral(v: Value)
    requires WellFormed(v)
    ensures IsNeutral(Print(v))
  {
    match v
    case Atom(token) => QuietIsNeutral(token);
    case Str(pieces) => QuoteIsNeutral(pieces);
    case Arr(blank, elems) =>
      var body := if elems.NoElems? then blank else PrintElems(elems);
      if elems.NoElems? { WsIsNeutral(blank); } else { ElemsAreNeutral(elems); }
      QuietIsNeutral("[");
      QuietIsNeutral("]");
      NeutralConcat("[", body);
      NeutralConcat("[" + body, "]");
    case Obj(blank, members) =>
      BodyIsNeutral(blank, members);
      forall st | IsOut(st)
        ensures Inside(st, Print(v)) && After(st, Print(v)) == st
      {
        ObjectScan(st, blank, members);
      }
  }

  lemma {:induction false} ElemsAreNeutral(es: Elems)
    requires WellFormedElems(es)
    ensures IsNeutral(PrintElems(es))
  {
    match es
    case NoElems => QuietIsNeutral("");
    case Elem(before, value, after, rest) =>
      WsIsNeutral(before);
      ValueIsNeutral(value);
      WsIsNeutral(after);
      NeutralConcat(before, Print(value));
      NeutralConcat(before + Print(value), after);
      ElemsAreNeutral(rest);
      QuietIsNeutral(",");
      NeutralConcat(",", PrintElems(rest));
      QuietIsNeutral("");
      NeutralConcat(before + Print(value) + after, if rest.NoElems? then "" else "," + PrintElems(rest));
  }

  lemma {:induction false} MembersAreNeutral(ms: Members)
    requires WellFormedMembers(ms)
    ensures IsNeutral(PrintMembers(ms))
    decreases ms, 0
  {
    match ms
    case NoMembers => QuietIsNeutral("");
    case Member(before, name, afterName, beforeValue, value, after, rest) =>
      WsIsNeutral(before);
      QuoteIsNeutral(name);
      WsIsNeutral(afterName);
      QuietIsNeutral(":");
      WsIsNeutral(beforeValue);
      ValueIsNeutral(value);
      WsIsNeutral(after);
      MembersAreNeutral(rest);
      QuietIsNeutral(",");
      QuietIsNeutral("");
      NeutralConcat(",", PrintMembers(rest));
      NeutralConcat(before, Quote(name));
      NeutralConcat(before + Quote(name), afterName);
      NeutralConcat(before + Quote(name) + afterName, ":");
      NeutralConcat(before + Quote(name) + afterName + ":", beforeValue);
      NeutralConcat(before + Quote(name) + afterName + ":" + beforeValue, Print(value));
      NeutralConcat(before + Quote(name) + afterName + ":" + beforeValue + Print(value), after);
      NeutralConcat(before + Quote(name) + afterName + ":" + beforeValue + Print(value) + after,
                    if rest.NoMembers? then "" else "," + PrintMembers(rest));
  }

  lemma {:induction false} BodyIsNeutral(blank: string, members: Members)
    requires IsWs(blank) && WellFormedMembers(members)
    ensures IsNeutral(Body(blank, members))
    decreases members, 1
  {
    if members.NoMembers? { WsIsNeutral(blank); } else { MembersAreNeutral(members); }
  }

  /** Reading an object from depth `st.depth`: one level deeper for the body, and back at its last brace. */
  lemma ObjectScan(st: Scan, blank: string, members: Members)
    requires st.depth >= 0 && !st.inString && !st.escape
    requires IsNeutral(Body(blank, members))
    ensures var text := "{" + Body(blank, members);
      && Inside(st, text) && After(st, text) == st.(depth := st.depth + 1)
      && After(st, text + "}") == st
      && (st.depth >= 1 ==> Inside(st, text + "}"))
  {
    var body := Body(blank, members);
    var text := "{" + body;
    var deeper := st.(depth := st.depth + 1);
    assert text[0] == '{' && text[1..] == body;
    assert IsOut(deeper);
    AfterConcat(st, text, "}");
    InsideConcat(st, text, "}");
    assert "}"[1..] == [];
  }

  // ---------------------------------------------------------------------------
  // Extraction undoes printing
  // ---------------------------------------------------------------------------

  predicate IsObject(o: Value) {
    o.Obj? && WellFormed(o)
  }

  lemma {:induction false} InsideKeepsDepth(st: Scan, s: string, e: nat)
    requires Inside(st, s) && 0 < e <= |s|
    ensures After(st, s[..e]).depth >= 1
    decreases |s|
  {
    assert s[..e][1..] == s[1..][..e - 1];
    if e > 1 {
      InsideKeepsDepth(Step(st, s[0]), s[1..], e - 1);
    } else {
      assert s[..1][1..] == [];
    }
  }

  /** The text of an object opens at its first character and closes only at its last. */
  lemma ObjectText(o: Value)
    requires IsObject(o)
    ensures var text := Print(o);
      && |text| >= 2 && text[0] == '{' && text[|text| - 1] == '}'
      && Inside(START, text[..|text| - 1])
      && After(START, text) == START
      && forall e :: 0 < e < |text| ==> After(START, text[..e]).depth >= 1
  {
    var text := Print(o);
    BodyIsNeutral(o.blank, o.members);
    ObjectScan(START, o.blank, o.members);
    var head := "{" + Body(o.blank, o.members);
    assert text == head + "}" && text[..|text| - 1] == head;
    forall e | 0 < e < |text|
      ensures After(START, text[..e]).depth >= 1
    {
      InsideKeepsDepth(START, head, e);
      assert text[..e] == head[..e];
    }
  }

  predicate BraceFree(s: string) {
    forall i :: 0 <= i < |s| ==> s[i] != '{'
  }

  lemma FirstBraceAfter(pre: string, rest: string)
    requires BraceFree(pre) && rest != "" && rest[0] == '{'
    ensures FindBrace(pre + rest) == |pre|
  {
    assert (pre + rest)[|pre|] == '{';
    assert forall i :: 0 <= i < |pre| ==> (pre + rest)[i] == pre[i];
  }

  /** Whatever surrounds a printed object, extraction gives the object back, provided no brace precedes it. */
  lemma ExtractUndoesPrinting(pre: string, o: Value, post: string)
    requires IsObject(o) && BraceFree(pre)
    ensures Extract(pre + Print(o) + post) == Some(Print(o))
  {
    var p := Print(o);
    var text := pre + p + post;
    ObjectText(o);
    assert text == pre + (p + post);
    FirstBraceAfter(pre, p + post);
    assert text[|pre|..|pre| + |p|] == p;
    forall e | |pre| < e < |pre| + |p|
      ensures After(START, text[|pre|..e]).depth != 0
    {
      assert text[|pre|..e] == p[..e - |pre|];
    }
    assert IsShortestBalanced(text, |pre|, |pre| + |p|);
    ExtractIsShortest(text, |pre| + |p|);
  }

  /** At most one object text is a prefix of a given text. */
  lemma ObjectPrefixUnique(o1: Value, o2: Value, post1: string, post2: string)
    requires IsObject(o1) && IsObject(o2) && Print(o1) + post1 == Print(o2) + post2
    ensures Print(o1) == Print(o2)
  {
    ExtractUndoesPrinting("", o1, post1);
    ExtractUndoesPrinting("", o2, post2);
    assert "" + Print(o1) + post1 == Print(o1) + post1;
    assert "" + Print(o2) + post2 == Print(o2) + post2;
  }

  // ---------------------------------------------------------------------------
  // Markdown fences
  // ---------------------------------------------------------------------------

  /** A fence of three backticks stands at `i`. */
  predicate IsFenceAt(s: string, i: nat) {
    i + 3 <= |s| && s[i] == s[i + 1] == s[i + 2] == '`'
  }

  predicate OpensFence(s: string) {
    IsFenceAt(s, 0)
  }

  predicate SpaceBetween(text: string, from: nat, to: nat)
    requires to <= |text|
  {
    forall i :: from <= i < to ==> IsSpace(text[i])
  }

  /** The index of the first character that is not space. */
  function LeadingSpace(s: string): (n: nat)
    ensures n <= |s| && SpaceBetween(s, 0, n)
    ensures n < |s| ==> !IsSpace(s[n])
  {
    if s == "" || !IsSpace(s[0]) then 0
    else
      assert forall i :: 0 < i < |s| ==> s[i] == s[1..][i - 1];
      1 + LeadingSpace(s[1..])
  }

  /** Where `s` ends without its trailing space, but not before `from`. */
  function TrimmedEnd(s: string, from: nat): (n: nat)
    requires from <= |s|
    ensures from <= n <= |s| && SpaceBetween(s, n, |s|)
    ensures n > from ==> !IsSpace(s[n - 1])
  {
    if |s| == from || !IsSpace(s[|s| - 1]) then |s| else TrimmedEnd(s[..|s| - 1], from)
  }

  /** `str.strip()`. */
  function Trim(s: string): string {
    s[LeadingSpace(s)..TrimmedEnd(s, LeadingSpace(s))]
  }

  /** `str.rfind("```")`, looking at indices up to `last`. */
  function LastFence(s: string, last: int): (at: Option<nat>)
    requires last + 3 <= |s|
    ensures at.Some? ==> IsFenceAt(s, at.value)
    decreases last + 1
  {
    if last < 0 then None
    else if IsFenceAt(s, last) then Some(last)
    else LastFence(s, last - 1)
  }

  /** `strip_markdown_fence`. */
  function StripFence(text: string): string {
    WithoutFence(Trim(text))
  }

  function WithoutFence(stripped: string): string {
    var newline := Find(stripped, '\n');
    if !OpensFence(stripped) || newline == |stripped| then stripped else Unfenced(stripped[newline + 1..])
  }

  /** What stands between the line that opens a fence and the last fence. */
  function Unfenced(inner: string): string {
    Trim(inner[..InnerEnd(inner)])
  }

  /** Where the last fence starts, or the end. */
  function InnerEnd(inner: string): (n: nat)
    ensures n <= |inner|
  {
    match LastFence(inner, |inner| - 3) case None => |inner| case Some(closing) => closing
  }

  /**
   * Where the stripped text sits in the original: it is `text[k..m]`, only space lies in `text[a..k]`
   * and `text[m..q]`, the cut `a` follows the fence's own line, and `q` is the end or a backtick.
   */
  datatype Slice = Slice(a: nat, k: nat, m: nat, q: nat)

  ghost predicate IsStripSlice(text: string, clean: string, c: Slice) {
    && IsPadded(text, c)
    && clean == text[c.k..c.m]
    && (c.a == 0 || FollowsFenceLine(text, c.a))
  }

  ghost predicate IsPadded(text: string, c: Slice) {
    && c.a <= c.k <= c.m <= c.q <= |text|
    && SpaceBetween(text, c.a, c.k) && SpaceBetween(text, c.m, c.q)
    && (c.q == |text| || text[c.q] == '`')
  }

  /** `a` starts the line after the one that opens a fence. */
  ghost predicate FollowsFenceLine(text: string, a: nat)
    requires a <= |text|
  {
    && OpensFence(text[LeadingSpace(text)..]) && LeadingSpace(text) < a
    && text[a - 1] == '\n' && forall i :: LeadingSpace(text) <= i < a - 1 ==> text[i] != '\n'
  }

  lemma {:induction false} LastFenceIsLast(s: string, last: int, at: nat)
    requires last + 3 <= |s| && at <= last && IsFenceAt(s, at)
    requires forall i :: at < i <= last ==> !IsFenceAt(s, i)
    ensures LastFence(s, last) == Some(at)
    decreases last + 1
  {
    if at < last {
      LastFenceIsLast(s, last - 1, at);
    }
  }

  lemma {:induction false} NoLastFence(s: string, last: int)
    requires last + 3 <= |s| && forall i :: 0 <= i <= last ==> !IsFenceAt(s, i)
    ensures LastFence(s, last) == None
    decreases last + 1
  {
    if last >= 0 {
      NoLastFence(s, last - 1);
    }
  }

  /** The body of a fenced block is cut out and trimmed, up to its last fence or, without one, to the end. */
  lemma FencedBlock(text: string, opening: string, body: string, closing: string)
    requires Trim(text) == text == opening + "\n" + (body + closing)
    requires OpensFence(opening) && '\n' !in opening
    requires closing == "" || IsFenceAt(closing, 0)
    requires forall i :: (if closing == "" then 0 else |body| + 1) <= i <= |body + closing| - 3 ==>
      !IsFenceAt(body + closing, i)
    ensures StripFence(text) == Trim(body)
  {
    FirstLineOfFence(text, opening, body + closing);
    BodyEnds(body, closing);
    assert (body + closing)[..|body|] == body;
  }

  lemma BodyEnds(body: string, closing: string)
    requires closing == "" || IsFenceAt(closing, 0)
    requires forall i :: (if closing == "" then 0 else |body| + 1) <= i <= |body + closing| - 3 ==>
      !IsFenceAt(body + closing, i)
    ensures InnerEnd(body + closing) == |body|
  {
    var inner := body + closing;
    if closing == "" {
      NoLastFence(inner, |inner| - 3);
    } else {
      assert inner[|body|] == closing[0] && inner[|body| + 1] == closing[1] && inner[|body| + 2] == closing[2];
      LastFenceIsLast(inner, |inner| - 3, |body|);
    }
  }

  lemma FirstLineOfFence(text: string, opening: string, inner: string)
    requires text == opening + "\n" + inner && OpensFence(opening) && '\n' !in opening
    ensures OpensFence(text) && Find(text, '\n') == |opening| && text[|opening| + 1..] == inner
  {
    assert text[|opening|] == '\n';
    assert forall i :: 0 <= i < |opening| ==> text[i] == opening[i];
  }

  lemma SliceOfSlice(text: string, from: nat, to: nat, i: nat, j: nat)
    requires from <= to <= |text| && i <= j <= to - from
    ensures text[from..to][i..j] == text[from + i..from + j]
  {
    var a, b := text[from..to][i..j], text[from + i..from + j];
    assert |a| == |b| && forall x :: 0 <= x < |a| ==> a[x] == b[x];
  }

  lemma TrimSlice(text: string, from: nat, to: nat, s: string) returns (k: nat, m: nat)
    requires from <= to <= |text| && s == text[from..to]
    ensures from <= k <= m <= to && Trim(s) == text[k..m]
    ensures k == from + LeadingSpace(s)
    ensures SpaceBetween(text, from, k) && SpaceBetween(text, m, to)
  {
    var i := LeadingSpace(s);
    var j := TrimmedEnd(s, i);
    k, m := from + i, from + j;
    SliceOfSlice(text, from, to, i, j);
    assert forall x :: from <= x < to ==> text[x] == s[x - from];
  }

  /** The inner part of a fenced text, cut at its last fence and trimmed. */
  lemma InnerSlice(text: string, a: nat, end: nat, inner: string) returns (c: Slice)
    requires a <= end <= |text| && inner == text[a..end] && SpaceBetween(text, end, |text|)
    ensures c.a == a && IsPadded(text, c) && Unfenced(inner) == text[c.k..c.m]
  {
    var n := InnerEnd(inner);
    InnerSegment(text, a, end, inner, n);
    var k, m := TrimSlice(text, a, a + n, inner[..n]);
    c := Slice(a, k, m, if n == |inner| then |text| else a + n);
  }

  /** The inner part ends where the text was trimmed, or at a backtick. */
  lemma InnerSegment(text: string, a: nat, end: nat, inner: string, n: nat)
    requires a <= end <= |text| && inner == text[a..end] && n == InnerEnd(inner)
    ensures inner[..n] == text[a..a + n] && (n < |inner| ==> text[a + n] == '`')
  {
    match LastFence(inner, |inner| - 3)
    case None =>
    case Some(closing) => CutAtFence(text, a, end, inner, closing);
  }

  lemma CutAtFence(text: string, a: nat, end: nat, inner: string, closing: nat)
    requires a <= end <= |text| && inner == text[a..end]
    requires IsFenceAt(inner, closing)
    ensures inner[..closing] == text[a..a + closing] && text[a + closing] == '`'
  {
    SliceOfSlice(text, a, end, 0, closing);
    assert inner[0..closing] == inner[..closing];
    assert text[a + closing] == inner[closing];
  }

  lemma FenceLine(text: string, lead: nat, end: nat, newline: nat)
    requires lead <= end <= |text| && newline < end - lead
    requires OpensFence(text[lead..end]) && newline == Find(text[lead..end], '\n')
    ensures OpensFence(text[lead..])
    ensures text[lead + newline] == '\n' && forall i :: lead <= i < lead + newline ==> text[i] != '\n'
  {
    var stripped := text[lead..end];
    assert forall i :: lead <= i < end ==> text[i] == stripped[i - lead];
  }

  lemma StripSlice(text: string) returns (c: Slice)
    ensures IsStripSlice(text, StripFence(text), c)
  {
    assert text[0..|text|] == text;
    var lead, end := TrimSlice(text, 0, |text|, text);
    var newline := Find(text[lead..end], '\n');
    if !OpensFence(text[lead..end]) || newline == end - lead {
      c := Slice(0, lead, end, |text|);
    } else {
      FenceLine(text, lead, end, newline);
      c := FencedSlice(text, lead, end, newline);
    }
  }

  lemma FencedSlice(text: string, lead: nat, end: nat, newline: nat) returns (c: Slice)
    requires lead <= end <= |text| && newline < end - lead && Trim(text) == text[lead..end]
      && SpaceBetween(text, end, |text|)
    requires OpensFence(text[lead..end]) && newline == Find(text[lead..end], '\n')
    ensures c.a == lead + newline + 1 && IsPadded(text, c) && StripFence(text) == text[c.k..c.m]
  {
    var a := lead + newline + 1;
    SliceOfSlice(text, lead, end, newline + 1, end - lead);
    var inner := text[lead..end][newline + 1..];
    assert inner == text[lead..end][newline + 1..end - lead];
    c := InnerSlice(text, a, end, inner);
  }

  // ---------------------------------------------------------------------------
  // Parsing a response
  // ---------------------------------------------------------------------------

  /** What `json.loads` makes of a candidate. */
  datatype Loaded<+V> = NotJson | NotObject | Object(value: V)

  /** `json.loads` accepts as objects only object texts with white space around them. */
  ghost predicate LoadsObjectTexts<V(!new)>(loads: string -> Loaded<V>, meaning: string -> V) {
    forall t {:trigger loads(t)} :: loads(t).Object? ==>
      exists before, o, after {:trigger before + Print(o) + after} ::
        && IsWs(before) && IsObject(o) && IsWs(after)
        && t == before + Print(o) + after && loads(t).value == meaning(Print(o))
  }

  function CandidatesOf(text: string, clean: string, extracted: Option<string>): seq<string> {
    [text] + (if clean != text then [clean] else []) + (match extracted case Some(found) => [found] case None => [])
  }

  function Candidates(text: string): seq<string> {
    CandidatesOf(text, StripFence(text), Extract(text))
  }

  /** The value of the first non-empty candidate that loads as an object. */
  function FirstObject<V>(loads: string -> Loaded<V>, candidates: seq<string>): Option<V> {
    if candidates == [] then None
    else if candidates[0] != "" && loads(candidates[0]).Object? then Some(loads(candidates[0]).value)
    else FirstObject(loads, candidates[1..])
  }

  /** `parse_json_response`; `None` stands for its `IntentClassificationError`. */
  method ParseJsonResponse<V>(text: string, loads: string -> Loaded<V>) returns (data: Option<V>)
    ensures data == FirstObject(loads, Candidates(text))
  {
    var clean := StripFence(text);
    var attempts := [text];
    if clean != text {
      attempts := attempts + [clean];
    }
    var found := ExtractJson(text);
    if found.Some? {
      attempts := attempts + [found.value];
    }
    assert attempts == Candidates(text);
    data := None;
    for i := 0 to |attempts|
      invariant FirstObject(loads, attempts) == FirstObject(loads, attempts[i..])
    {
      assert attempts[i..][1..] == attempts[i + 1..];
      if attempts[i] != "" {
        match loads(attempts[i]) {
          case NotJson =>
          case NotObject =>
          case Object(value) => return Some(value);
        }
      }
    }
  }

  // ---------------------------------------------------------------------------
  // Parsing recovers the printed object
  // ---------------------------------------------------------------------------

  /** A candidate that starts no later than the object, and loads as an object, is that object. */
  lemma EarlyCandidateAgrees<V(!new)>(loads: string -> Loaded<V>, meaning: string -> V,
                                pre: string, o: Value, post: string, text: string, k: nat, m: nat)
    requires LoadsObjectTexts(loads, meaning) && IsObject(o) && BraceFree(pre)
    requires text == pre + (Print(o) + post) && k <= m <= |text| && k <= |pre|
    requires loads(text[k..m]).Object?
    ensures loads(text[k..m]).value == meaning(Print(o))
  {
    var t := text[k..m];
    var before, o', after :|
      IsWs(before) && IsObject(o') && IsWs(after) && t == before + Print(o') + after
        && loads(t).value == meaning(Print(o'));
    SameFirstBrace(pre, o, post, text, k, m, before, o', after);
    SameTail(text, pre, Print(o) + post, k, m, before, Print(o'), after);
    ObjectPrefixUnique(o, o', post, after + text[m..]);
  }

  lemma SameFirstBrace(pre: string, o: Value, post: string, text: string, k: nat, m: nat, before: string, o': Value,
                       after: string)
    requires IsObject(o) && IsObject(o') && BraceFree(pre) && IsWs(before)
    requires text == pre + (Print(o) + post) && k <= m <= |text| && k <= |pre|
    requires text[k..m] == before + Print(o') + after
    ensures k + |before| == |pre|
  {
    var t := text[k..m];
    ObjectText(o);
    ObjectText(o');
    FirstBraceFollows(text, pre, Print(o), post);
    FirstBraceFollows(t, before, Print(o'), after);
    FirstBracesMeet(text, k, m, |pre|, |before|);
  }

  /** Two texts, one inside the other, whose first braces the inner one contains. */
  lemma FirstBracesMeet(text: string, k: nat, m: nat, i: nat, j: nat)
    requires k <= m <= |text| && k <= i < |text| && j < m - k
    requires text[i] == '{' && forall x :: 0 <= x < i ==> text[x] != '{'
    requires text[k..m][j] == '{' && forall x :: 0 <= x < j ==> text[k..m][x] != '{'
    ensures k + j == i
  {
    assert text[k + j] == text[k..m][j];
    assert i < m ==> text[k..m][i - k] == text[i];
  }

  lemma FirstBraceFollows(text: string, pre: string, p: string, post: string)
    requires BraceFree(pre) && p != "" && p[0] == '{' && (text == pre + (p + post) || text == pre + p + post)
    ensures |pre| < |text| && text[|pre|] == '{' && forall i :: 0 <= i < |pre| ==> text[i] != '{'
  {
    assert forall i :: 0 <= i < |pre| ==> text[i] == pre[i];
  }

  lemma SameTail(text: string, pre: string, rest: string, k: nat, m: nat, before: string, p: string, after: string)
    requires text == pre + rest && k <= m <= |text| && text[k..m] == before + p + after && k + |before| == |pre|
    ensures rest == p + (after + text[m..])
  {
    assert text == text[..k] + (before + p + after) + text[m..];
    assert text[|pre|..] == rest;
    assert text[..k] + before == text[..|pre|];
  }

  lemma {:induction false} CharInside(st: Scan, s: string, i: nat)
    requires Inside(st, s) && i < |s|
    ensures if After(st, s[..i]).inString then s[i] != '\n' else s[i] != '`'
    decreases |s|
  {
    if i > 0 {
      CharInside(Step(st, s[0]), s[1..], i - 1);
      assert s[..i][1..] == s[1..][..i - 1];
    }
  }

  lemma {:induction false} EscapeOnlyInString(st: Scan, s: string)
    requires !st.inString ==> !st.escape
    ensures !After(st, s).inString ==> !After(st, s).escape
    decreases |s|
  {
    if s != "" {
      EscapeOnlyInString(Step(st, s[0]), s[1..]);
    }
  }

  /** A newline inside an object text stands between tokens. */
  lemma OutAfterNewline(o: Value, a: nat)
    requires IsObject(o) && 0 < a < |Print(o)| && Print(o)[a - 1] == '\n'
    ensures IsOut(After(START, Print(o)[..a]))
  {
    var p := Print(o);
    ObjectText(o);
    var almost := p[..|p| - 1];
    assert almost[..a - 1] == p[..a - 1] && almost[a - 1] == '\n';
    CharInside(START, almost, a - 1);
    assert p[..a] == p[..a - 1] + [p[a - 1]];
    AfterConcat(START, p[..a - 1], [p[a - 1]]);
    EscapeOnlyInString(START, p[..a - 1]);
    assert [p[a - 1]][1..] == "";
  }

  lemma SegmentOfPrefix(p: string, post: string, a: nat, e: nat)
    requires a <= e <= |p|
    ensures (p + post)[a..e] == p[a..e] && p[..a] + p[a..e] == p[..e]
  {
    var x, y := (p + post)[a..e], p[a..e];
    assert |x| == |y| && forall i :: 0 <= i < |x| ==> x[i] == y[i];
  }

  lemma SegmentPastPrefix(p: string, post: string, a: nat, e: nat)
    requires a <= |p| <= e <= |p + post|
    ensures (p + post)[a..e][..|p| - a] == p[a..]
  {
    var x, y := (p + post)[a..e][..|p| - a], p[a..];
    assert |x| == |y| && forall i :: 0 <= i < |x| ==> x[i] == y[i];
  }

  /** No neutral text goes from between two tokens of an object text past its end. */
  lemma NeutralReachesEnd(o: Value, post: string, a: nat, e: nat)
    requires IsObject(o) && 0 < a < |Print(o)| <= e <= |Print(o) + post|
    requires IsOut(After(START, Print(o)[..a]))
    ensures !IsNeutral((Print(o) + post)[a..e])
  {
    var p := Print(o);
    var run := (p + post)[a..e];
    ObjectText(o);
    AfterConcat(START, p[..a], p[a..]);
    SplitAndJoin(p, a);
    SegmentPastPrefix(p, post, a, e);
    if IsNeutral(run) {
      InsideKeepsDepth(After(START, p[..a]), run, |p| - a);
    }
  }

  /** From a between-token place in an object text, neutral text cannot reach the end of the object. */
  lemma NeutralStaysShort(o: Value, post: string, a: nat, e: nat)
    requires IsObject(o) && 0 < a < |Print(o)| && a <= e <= |Print(o) + post|
    requires IsOut(After(START, Print(o)[..a])) && IsNeutral((Print(o) + post)[a..e])
    ensures e < |Print(o)|
    ensures After(START, Print(o)[..e]) == After(START, Print(o)[..a])
  {
    var p := Print(o);
    if e >= |p| {
      NeutralReachesEnd(o, post, a, e);
    } else {
      SegmentOfPrefix(p, post, a, e);
      AfterConcat(START, p[..a], p[a..e]);
    }
  }

  lemma SpaceIsNeutral(text: string, from: nat, to: nat)
    requires from <= to <= |text| && SpaceBetween(text, from, to)
    ensures IsNeutral(text[from..to])
  {
    QuietIsNeutral(text[from..to]);
  }

  /** Space from inside a text whose last character is not space ends inside it. */
  lemma BraceComesEarly(p: string, rest: string, c: Slice, before: string)
    requires p != "" && p[|p| - 1] == '}' && p <= rest && c.a < |p| && c.a <= c.k && c.k + |before| <= |rest|
    requires SpaceBetween(rest, c.a, c.k) && IsWs(before) && rest[c.k..c.k + |before|] == before
    ensures c.k + |before| < |p|
  {
    assert rest[|p| - 1] == '}' && !IsSpace('}');
    assert forall i :: c.k <= i < c.k + |before| ==> rest[i] == before[i - c.k];
  }

  lemma BraceInsideObject(p: string, post: string, rest: string, c: Slice, before: string, p': string, after: string)
    requires p != "" && p[|p| - 1] == '}' && rest == p + post && p' != "" && p'[0] == '{'
    requires c.a <= c.k <= c.m <= |rest| && SpaceBetween(rest, c.a, c.k) && IsWs(before)
    requires rest[c.k..c.m] == before + p' + after && (BraceFree(post) || c.a < |p|)
    ensures c.k + |before| < |p|
  {
    assert rest[c.k..c.m][|before|] == p'[0];
    assert rest[c.k + |before|] == '{';
    if c.a < |p| {
      SliceOfSlice(rest, c.k, c.m, 0, |before|);
      assert (before + p' + after)[0..|before|] == before;
      BraceComesEarly(p, rest, c, before);
    }
  }

  /**
   * A slice that starts on a line inside the object and holds an object text ends before the outer
   * object does, and not at a backtick.
   */
  lemma SliceInsideObject(o: Value, post: string, rest: string, c: Slice, before: string, o': Value, after: string)
    requires IsObject(o) && IsObject(o') && rest == Print(o) + post && (BraceFree(post) || c.a < |Print(o)|)
    requires 0 < c.a <= c.k <= c.m <= c.q <= |rest| && rest[c.a - 1] == '\n'
    requires SpaceBetween(rest, c.a, c.k) && SpaceBetween(rest, c.m, c.q) && IsWs(before) && IsWs(after)
    requires rest[c.k..c.m] == before + Print(o') + after
    ensures c.q < |Print(o)| && rest[c.q] != '`'
  {
    var p := Print(o);
    ObjectText(o);
    ObjectText(o');
    BraceInsideObject(p, post, rest, c, before, Print(o'), after);
    OutAfterNewline(o, c.a);
    SliceIsNeutral(rest, c, before, o', after);
    NeutralStaysShort(o, post, c.a, c.q);
    if c.q < |p| - 1 {
      var almost := p[..|p| - 1];
      assert almost[..c.q] == p[..c.q];
      CharInside(START, almost, c.q);
    }
  }

  lemma SliceIsNeutral(rest: string, c: Slice, before: string, o': Value, after: string)
    requires IsObject(o') && c.a <= c.k <= c.m <= c.q <= |rest|
    requires SpaceBetween(rest, c.a, c.k) && SpaceBetween(rest, c.m, c.q) && IsWs(before) && IsWs(after)
    requires rest[c.k..c.m] == before + Print(o') + after
    ensures IsNeutral(rest[c.a..c.q])
  {
    SpaceIsNeutral(rest, c.a, c.k);
    WsIsNeutral(before);
    ValueIsNeutral(o');
    WsIsNeutral(after);
    SpaceIsNeutral(rest, c.m, c.q);
    NeutralConcat(before, Print(o'));
    NeutralConcat(before + Print(o'), after);
    NeutralConcat(rest[c.a..c.k], before + Print(o') + after);
    NeutralConcat(rest[c.a..c.k] + (before + Print(o') + after), rest[c.m..c.q]);
    assert rest[c.a..c.q] == rest[c.a..c.k] + rest[c.k..c.m] + rest[c.m..c.q];
  }

  function Shift(c: Slice, n: nat): Slice
    requires n <= c.a && c.a <= c.k <= c.m <= c.q
  {
    Slice(c.a - n, c.k - n, c.m - n, c.q - n)
  }

  lemma ShiftedSpace(pre: string, rest: string, from: nat, to: nat)
    requires |pre| <= from <= to <= |pre| + |rest| && SpaceBetween(pre + rest, from, to)
    ensures SpaceBetween(rest, from - |pre|, to - |pre|)
  {
    assert forall i :: 0 <= i < |rest| ==> rest[i] == (pre + rest)[i + |pre|];
  }

  lemma ShiftedSegment(pre: string, rest: string, from: nat, to: nat)
    requires |pre| <= from <= to <= |pre| + |rest|
    ensures rest[from - |pre|..to - |pre|] == (pre + rest)[from..to]
  {
  }

  lemma ShiftedSlice(pre: string, rest: string, clean: string, c: Slice)
    requires IsStripSlice(pre + rest, clean, c) && |pre| < c.a
    ensures var d := Shift(c, |pre|);
      && d.q <= |rest| && rest[d.a - 1] == '\n'
      && SpaceBetween(rest, d.a, d.k) && SpaceBetween(rest, d.m, d.q)
      && rest[d.k..d.m] == clean
      && (d.q == |rest| || rest[d.q] == '`')
  {
    ShiftedSpace(pre, rest, c.a, c.k);
    ShiftedSpace(pre, rest, c.m, c.q);
    ShiftedSegment(pre, rest, c.k, c.m);
    assert (pre + rest)[c.a - 1] == rest[c.a - 1 - |pre|];
    if c.q < |pre + rest| {
      assert (pre + rest)[c.q] == rest[c.q - |pre|];
    }
  }

  /** A stripped slice that starts inside the object never loads as an object; nor does a later one without braces. */
  lemma LateCandidateFails<V(!new)>(loads: string -> Loaded<V>, meaning: string -> V,
                                    pre: string, o: Value, post: string, clean: string, c: Slice)
    requires LoadsObjectTexts(loads, meaning) && IsObject(o)
    requires IsStripSlice(pre + (Print(o) + post), clean, c) && |pre| < c.a
    requires BraceFree(post) || c.a < |pre| + |Print(o)|
    ensures !loads(clean).Object?
  {
    var rest := Print(o) + post;
    ShiftedSlice(pre, rest, clean, c);
    if loads(clean).Object? {
      var before, o', after :|
        && IsWs(before) && IsObject(o') && IsWs(after)
        && clean == before + Print(o') + after && loads(clean).value == meaning(Print(o'));
      SliceInsideObject(o, post, rest, Shift(c, |pre|), before, o', after);
    }
  }

  /** Text before the object that opens no fence, or that also ends the fence's own line. */
  predicate ClosesFenceLine(pre: string) {
    var lead := pre[LeadingSpace(pre)..];
    !OpensFence(lead) || '\n' in lead
  }

  lemma SameLead(pre: string, rest: string)
    requires rest != "" && rest[0] == '{'
    ensures LeadingSpace(pre + rest) == LeadingSpace(pre)
    ensures OpensFence((pre + rest)[LeadingSpace(pre)..]) ==> OpensFence(pre[LeadingSpace(pre)..])
  {
    var text := pre + rest;
    var n := LeadingSpace(pre);
    assert forall i :: 0 <= i < |pre| ==> text[i] == pre[i];
    assert text[|pre|] == '{' && !IsSpace('{');
    assert LeadingSpace(text) == n;
    var lead := text[n..];
    if OpensFence(lead) {
      assert lead[0] == lead[1] == lead[2] == '`';
      assert text[n] == text[n + 1] == text[n + 2] == '`';
      assert n + 3 <= |pre|;
    }
  }

  lemma EarlyCut(pre: string, rest: string, clean: string, c: Slice)
    requires BraceFree(pre) && rest != "" && rest[0] == '{'
    requires ClosesFenceLine(pre) && IsStripSlice(pre + rest, clean, c)
    ensures c.a <= |pre|
  {
    SameLead(pre, rest);
    if c.a != 0 {
      var n := LeadingSpace(pre);
      var i :| 0 <= i < |pre[n..]| && pre[n..][i] == '\n';
      assert (pre + rest)[n + i] == '\n';
    }
  }

  /** Surroundings in which fence stripping cannot cut past the object, or leaves nothing to mistake for one. */
  predicate IsSheltered(pre: string, text: string, post: string) {
    ClosesFenceLine(pre) || '\n' in text || BraceFree(post)
  }

  /**
   * Parsing recovers the printed object from any surrounding text whose prefix has no brace, when the prefix
   * closes the line of a fence it opens, when the object itself spans lines, or when the suffix has no brace.
   */
  lemma ParseRecoversObject<V(!new)>(loads: string -> Loaded<V>, meaning: string -> V, pre: string, o: Value,
                                     post: string)
    requires LoadsObjectTexts(loads, meaning) && IsObject(o) && loads(Print(o)) == Object(meaning(Print(o)))
    requires BraceFree(pre) && IsSheltered(pre, Print(o), post)
    ensures FirstObject(loads, Candidates(pre + Print(o) + post)) == Some(meaning(Print(o)))
  {
    var text := pre + (Print(o) + post);
    assert text == pre + Print(o) + post;
    var c := StripSlice(text);
    CleanAgrees(loads, meaning, pre, o, post, StripFence(text), c);
    CandidatesRecoverIff(loads, meaning, pre, o, post);
  }

  lemma WholeTextAgrees<V(!new)>(loads: string -> Loaded<V>, meaning: string -> V, pre: string, o: Value, post: string)
    requires LoadsObjectTexts(loads, meaning) && IsObject(o) && BraceFree(pre)
    ensures var text := pre + (Print(o) + post);
      loads(text).Object? ==> loads(text).value == meaning(Print(o))
  {
    var text := pre + (Print(o) + post);
    assert text[0..|text|] == text;
    if loads(text).Object? {
      EarlyCandidateAgrees(loads, meaning, pre, o, post, text, 0, |text|);
    }
  }

  /** A newline in the object keeps the cut inside it. */
  lemma CutInsideObject(pre: string, o: Value, post: string, clean: string, c: Slice)
    requires IsObject(o) && '\n' in Print(o)
    requires IsStripSlice(pre + (Print(o) + post), clean, c) && |pre| < c.a
    ensures c.a < |pre| + |Print(o)|
  {
    var p, text := Print(o), pre + (Print(o) + post);
    ObjectText(o);
    var k :| 0 <= k < |p| && p[k] == '\n';
    assert text[|pre| + k] == '\n' && text[|pre| + |p| - 1] == '}';
    LeadStopsAtObject(pre, p + post);
    assert LeadingSpace(text) <= |pre|;
  }

  lemma {:induction false} LeadStopsAtObject(pre: string, rest: string)
    requires rest != "" && rest[0] == '{'
    ensures LeadingSpace(pre + rest) <= |pre|
  {
    assert (pre + rest)[|pre|] == '{' && !IsSpace('{');
  }

  lemma CleanAgrees<V(!new)>(loads: string -> Loaded<V>, meaning: string -> V, pre: string, o: Value, post: string,
                             clean: string, c: Slice)
    requires LoadsObjectTexts(loads, meaning) && IsObject(o)
    requires BraceFree(pre) && IsSheltered(pre, Print(o), post)
    requires IsStripSlice(pre + (Print(o) + post), clean, c)
    ensures loads(clean).Object? ==> loads(clean).value == meaning(Print(o))
  {
    var rest := Print(o) + post;
    ObjectText(o);
    if |pre| >= c.a {
      EarlyCleanAgrees(loads, meaning, pre, o, post, clean, c);
    } else if ClosesFenceLine(pre) {
      EarlyCut(pre, rest, clean, c);
    } else {
      if '\n' in Print(o) {
        CutInsideObject(pre, o, post, clean, c);
      }
      LateCandidateFails(loads, meaning, pre, o, post, clean, c);
    }
  }

  lemma EarlyCleanAgrees<V(!new)>(loads: string -> Loaded<V>, meaning: string -> V, pre: string, o: Value, post: string,
                                  clean: string, c: Slice)
    requires LoadsObjectTexts(loads, meaning) && IsObject(o) && BraceFree(pre)
    requires IsStripSlice(pre + (Print(o) + post), clean, c) && c.a <= |pre|
    ensures loads(clean).Object? ==> loads(clean).value == meaning(Print(o))
  {
    var text := pre + (Print(o) + post);
    ObjectText(o);
    assert text[|pre|] == '{' && !IsSpace('{');
    assert c.k <= |pre|;
    if loads(clean).Object? {
      EarlyCandidateAgrees(loads, meaning, pre, o, post, text, c.k, c.m);
    }
  }

  lemma {:induction false} FirstObjectIs<V>(loads: string -> Loaded<V>, candidates: seq<string>, v: V, at: nat)
    requires at < |candidates| && candidates[at] != "" && loads(candidates[at]).Object?
    requires forall i :: 0 <= i < |candidates| && loads(candidates[i]).Object? ==> loads(candidates[i]).value == v
    ensures FirstObject(loads, candidates) == Some(v)
  {
    if at > 0 {
      FirstObjectIs(loads, candidates[1..], v, at - 1);
    }
  }

  /** The object is recovered unless fence stripping leaves a text that loads as another one. */
  lemma CandidatesRecoverIff<V(!new)>(loads: string -> Loaded<V>, meaning: string -> V, pre: string, o: Value,
                                      post: string)
    requires LoadsObjectTexts(loads, meaning) && IsObject(o) && loads(Print(o)) == Object(meaning(Print(o)))
    requires BraceFree(pre)
    ensures
      var text := pre + Print(o) + post;
      var clean := StripFence(text);
      FirstObject(loads, Candidates(text)) == Some(meaning(Print(o)))
      <==> loads(text).Object? || !loads(clean).Object? || loads(clean).value == meaning(Print(o))
  {
    var text := pre + (Print(o) + post);
    assert text == pre + Print(o) + post;
    ExtractUndoesPrinting(pre, o, post);
    ObjectText(o);
    WholeTextAgrees(loads, meaning, pre, o, post);
    RecoversIff(loads, text, StripFence(text), Print(o), meaning(Print(o)));
  }

  lemma RecoversIff<V>(loads: string -> Loaded<V>, text: string, clean: string, found: string, v: V)
    requires text != "" && found != "" && loads(found) == Object(v)
    requires loads(text).Object? ==> loads(text).value == v
    requires clean == "" ==> !loads(clean).Object?
    ensures FirstObject(loads, CandidatesOf(text, clean, Some(found))) == Some(v)
      <==> loads(text).Object? || !loads(clean).Object? || loads(clean).value == v
  {
    var candidates := CandidatesOf(text, clean, Some(found));
    if loads(text).Object? {
      assert candidates[0] == text;
    } else if loads(clean).Object? && clean != text {
      SecondCandidate(loads, text, clean, Some(found));
    } else {
      FirstObjectIs(loads, candidates, v, |candidates| - 1);
    }
  }

  // ---------------------------------------------------------------------------
  // The exact condition
  // ---------------------------------------------------------------------------

  /** Trailing space does not matter to `strip`. */
  lemma {:induction false} TrimDropsTrailing(s: string, e: nat)
    requires e <= |s| && SpaceBetween(s, e, |s|)
    ensures Trim(s[..e]) == Trim(s)
    decreases |s|
  {
    if e < |s| {
      var t := s[..|s| - 1];
      assert t[..e] == s[..e];
      TrimDropsTrailing(t, e);
      TrimDropsLast(s, t);
    } else {
      assert s[..e] == s;
    }
  }

  lemma TrimDropsLast(s: string, t: string)
    requires s != "" && t == s[..|s| - 1] && IsSpace(s[|s| - 1])
    ensures Trim(t) == Trim(s)
  {
    LeadingSpaceOfPrefix(s, t);
    var n := LeadingSpace(s);
    if n < |s| {
      var m := TrimmedEnd(t, n);
      assert TrimmedEnd(s, n) == m;
      assert t[n..m] == s[n..m];
    }
  }

  lemma {:induction false} LeadingSpaceOfPrefix(s: string, t: string)
    requires s != "" && t == s[..|s| - 1] && IsSpace(s[|s| - 1])
    ensures LeadingSpace(s) < |s| ==> LeadingSpace(t) == LeadingSpace(s)
    ensures LeadingSpace(s) == |s| ==> LeadingSpace(t) == |t|
  {
    var n, m := LeadingSpace(s), LeadingSpace(t);
    assert forall i :: 0 <= i < |t| ==> t[i] == s[i];
    if m < |t| {
      assert s[m] == t[m];
    }
  }

  lemma {:induction false} LastFenceOfPrefix(s: string, t: string, last: int)
    requires |t| <= |s| && t == s[..|t|] && last + 3 <= |t|
    ensures LastFence(s, last) == LastFence(t, last)
    decreases last + 1
  {
    if last >= 0 {
      LastFenceOfPrefix(s, t, last - 1);
    }
  }

  lemma {:induction false} NoFenceInSpace(s: string, e: nat, last: int)
    requires e <= |s| && SpaceBetween(s, e, |s|) && e - 3 <= last && last + 3 <= |s|
    ensures LastFence(s, last) == LastFence(s, e - 3)
    decreases last + 3 - e
  {
    if last > e - 3 {
      if last >= 0 {
        assert IsSpace(s[last + 2]) && !IsSpace('`');
      }
      if last >= 0 || e >= 3 {
        NoFenceInSpace(s, e, last - 1);
      }
    }
  }

  /** Nor does it matter to what is left between the fences. */
  lemma UnfencedDropsTrailing(s: string, e: nat)
    requires e <= |s| && SpaceBetween(s, e, |s|)
    ensures Unfenced(s[..e]) == Unfenced(s)
  {
    var t := s[..e];
    NoFenceInSpace(s, e, |s| - 3);
    LastFenceOfPrefix(s, t, e - 3);
    if LastFence(s, |s| - 3).None? {
      assert t[..|t|] == t && s[..|s|] == s;
      TrimDropsTrailing(s, e);
    } else {
      assert t[..InnerEnd(s)] == s[..InnerEnd(s)];
    }
  }

  /**
   * The one danger: `pre` opens a fence whose line is still open at the object, the object stands on that
   * line, and the line ends in `post`.  Fence stripping then leaves what follows that line.
   */
  predicate SwallowsObject(pre: string, text: string, post: string) {
    !ClosesFenceLine(pre) && '\n' !in text && '\n' in post
  }

  /** What follows the first line of the suffix, without its fence. */
  function AfterFirstLine(post: string): string
    requires '\n' in post
  {
    Unfenced(post[Find(post, '\n') + 1..])
  }

  lemma FindIs(s: string, c: char, at: nat)
    requires at <= |s| && (forall i :: 0 <= i < at ==> s[i] != c) && (at < |s| ==> s[at] == c)
    ensures Find(s, c) == at
  {
  }

  /** The first newline of a text, seen through a slice. */
  lemma FindInSlice(text: string, lead: nat, end: nat, newline: nat)
    requires lead <= end <= |text| && lead <= newline
    requires forall i :: lead <= i < newline && i < |text| ==> text[i] != '\n'
    requires newline < |text| ==> text[newline] == '\n'
    ensures Find(text[lead..end], '\n') == if newline < end then newline - lead else end - lead
  {
    var s := text[lead..end];
    assert forall i :: 0 <= i < |s| ==> s[i] == text[lead + i];
    FindIs(s, '\n', if newline < end then newline - lead else end - lead);
  }

  lemma NoNewlineIn(pre: string, p: string, post: string, text: string, lead: nat)
    requires text == pre + (p + post) && lead <= |pre| && '\n' !in pre[lead..] && '\n' !in p
    ensures var newline := |pre| + |p| + Find(post, '\n');
      && (forall i :: lead <= i < newline && i < |text| ==> text[i] != '\n')
      && (newline < |text| ==> text[newline] == '\n')
  {
    assert forall i :: lead <= i < |pre| ==> text[i] == pre[lead..][i - lead];
    assert forall i :: |pre| <= i < |pre| + |p| ==> text[i] == p[i - |pre|];
    assert forall i :: |pre| + |p| <= i < |text| ==> text[i] == post[i - |pre| - |p|];
  }

  /** Where stripping ends, and that the fence opens it. */
  lemma SwallowedShape(pre: string, p: string, post: string, text: string) returns (lead: nat, end: nat)
    requires p != "" && p[0] == '{' && p[|p| - 1] == '}' && text == pre + (p + post) && !ClosesFenceLine(pre)
    ensures lead <= |pre| && |pre| + |p| <= end <= |text| && Trim(text) == text[lead..end]
    ensures SpaceBetween(text, end, |text|) && OpensFence(text[lead..end]) && '\n' !in pre[lead..]
  {
    assert text[0..|text|] == text;
    lead, end := TrimSlice(text, 0, |text|, text);
    SameLead(pre, p + post);
    assert text[|pre| + |p| - 1] == '}' && !IsSpace('}');
    var head := pre[lead..];
    assert forall i :: 0 <= i < |head| ==> text[lead + i] == head[i];
  }

  /** The first newline after a swallowed object, and what fence stripping finds of it. */
  lemma SwallowedNewline(pre: string, p: string, post: string, text: string)
    returns (lead: nat, end: nat, at: nat, stripped: string)
    requires p != "" && p[0] == '{' && p[|p| - 1] == '}' && text == pre + (p + post)
    requires SwallowsObject(pre, p, post)
    ensures lead <= end <= |text| && lead <= at < |text| && stripped == Trim(text) == text[lead..end]
    ensures SpaceBetween(text, end, |text|) && OpensFence(stripped)
    ensures Find(stripped, '\n') == if at < end then at - lead else |stripped|
    ensures Find(post, '\n') < |post| && post[Find(post, '\n') + 1..] == text[at + 1..]
  {
    lead, end := SwallowedShape(pre, p, post, text);
    stripped := text[lead..end];
    at := |pre| + |p| + Find(post, '\n');
    NoNewlineIn(pre, p, post, text, lead);
    FindInSlice(text, lead, end, at);
    TailOfText(pre, p, post, text, Find(post, '\n') + 1);
  }

  /** What fence stripping leaves of a swallowed object, as far as loading is concerned. */
  lemma SwallowedRest(pre: string, p: string, post: string, text: string) returns (within: bool)
    requires p != "" && p[0] == '{' && p[|p| - 1] == '}' && text == pre + (p + post)
    requires SwallowsObject(pre, p, post)
    ensures within ==> StripFence(text) == AfterFirstLine(post)
    ensures !within ==> OpensFence(StripFence(text)) && AfterFirstLine(post) == ""
  {
    var lead, end, at, stripped := SwallowedNewline(pre, p, post, text);
    within := at < end;
    if within {
      RestWithin(text, stripped, text[at + 1..], lead, end, at);
    } else {
      RestBehind(text, stripped, text[at + 1..], end, at);
    }
  }

  lemma TailOfText(pre: string, p: string, post: string, text: string, i: nat)
    requires text == pre + (p + post) && i <= |post|
    ensures |pre| + |p| + i <= |text| && post[i..] == text[|pre| + |p| + i..]
  {
  }

  lemma RestBehind(text: string, stripped: string, rest: string, end: nat, at: nat)
    requires end <= at < |text| && rest == text[at + 1..] && SpaceBetween(text, end, |text|)
    requires stripped == Trim(text) && OpensFence(stripped) && Find(stripped, '\n') == |stripped|
    ensures StripFence(text) == stripped && Unfenced(rest) == ""
  {
    assert SpaceBetween(rest, 0, |rest|);
    SpaceIsUnfenced(rest);
  }

  lemma RestWithin(text: string, stripped: string, rest: string, lead: nat, end: nat, at: nat)
    requires lead <= at < end <= |text| && rest == text[at + 1..] && Trim(text) == stripped == text[lead..end]
    requires SpaceBetween(text, end, |text|) && OpensFence(stripped) && Find(stripped, '\n') == at - lead
    ensures StripFence(text) == Unfenced(rest)
  {
    InnerIsPrefix(text, stripped, rest, lead, end, at);
    SpaceShifted(text, rest, at + 1, end);
    FencedRest(stripped, rest, at - lead, end - at - 1);
  }

  lemma FencedRest(stripped: string, rest: string, newline: nat, e: nat)
    requires OpensFence(stripped) && Find(stripped, '\n') == newline < |stripped|
    requires e <= |rest| && SpaceBetween(rest, e, |rest|) && stripped[newline + 1..] == rest[..e]
    ensures WithoutFence(stripped) == Unfenced(rest)
  {
    UnfencedDropsTrailing(rest, e);
  }

  lemma InnerIsPrefix(text: string, stripped: string, rest: string, lead: nat, end: nat, at: nat)
    requires lead <= at < end <= |text| && rest == text[at + 1..] && stripped == text[lead..end]
    ensures stripped[at - lead + 1..] == rest[..end - at - 1]
  {
    var x, y := stripped[at - lead + 1..], rest[..end - at - 1];
    assert |x| == |y| && forall i :: 0 <= i < |x| ==> x[i] == y[i];
  }

  lemma SpaceShifted(text: string, rest: string, from: nat, end: nat)
    requires from <= end <= |text| && rest == text[from..] && SpaceBetween(text, end, |text|)
    ensures SpaceBetween(rest, end - from, |rest|)
  {
  }

  lemma SpaceIsUnfenced(s: string)
    requires SpaceBetween(s, 0, |s|)
    ensures Unfenced(s) == ""
  {
    UnfencedDropsTrailing(s, 0);
    assert s[..0] == "" && Unfenced("") == Trim("") == "";
  }

  lemma PaddedObjectLeads(before: string, p: string, after: string)
    requires IsWs(before) && p != "" && p[0] == '{'
    ensures var text := before + p + after;
      LeadingSpace(text) == |before| && text[|before|..] != "" && text[|before|..][0] == '{'
  {
    var text := before + p + after;
    assert text[|before|] == '{' && !IsSpace('{');
    assert forall i :: 0 <= i < |before| ==> text[i] == before[i];
  }

  lemma FencedIsNoObject<V(!new)>(loads: string -> Loaded<V>, meaning: string -> V, text: string)
    requires LoadsObjectTexts(loads, meaning) && (text == "" || OpensFence(text[LeadingSpace(text)..]))
    ensures !loads(text).Object?
  {
    if loads(text).Object? {
      var before, o, after :| IsWs(before) && IsObject(o) && IsWs(after) && text == before + Print(o) + after;
      ObjectText(o);
      PaddedObjectLeads(before, Print(o), after);
    }
  }

  /**
   * Exactly when parsing recovers the printed object from a text without a brace before it: unless the object is
   * swallowed by an open fence line and what follows that line is another object.
   */
  lemma ParseRecoversIff<V(!new)>(loads: string -> Loaded<V>, meaning: string -> V, pre: string, o: Value, post: string)
    requires LoadsObjectTexts(loads, meaning) && IsObject(o) && loads(Print(o)) == Object(meaning(Print(o)))
    requires BraceFree(pre)
    ensures FirstObject(loads, Candidates(pre + Print(o) + post)) == Some(meaning(Print(o))) <==>
      !(&& SwallowsObject(pre, Print(o), post)
        && loads(AfterFirstLine(post)).Object? && loads(AfterFirstLine(post)).value != meaning(Print(o)))
  {
    if SwallowsObject(pre, Print(o), post) {
      SwallowedRecoversIff(loads, meaning, pre, o, post);
    } else if IsSheltered(pre, Print(o), post) {
      ParseRecoversObject(loads, meaning, pre, o, post);
    } else {
      OneLineRecovers(loads, meaning, pre, o, post);
    }
  }

  lemma SwallowedRecoversIff<V(!new)>(loads: string -> Loaded<V>, meaning: string -> V, pre: string, o: Value,
                                      post: string)
    requires LoadsObjectTexts(loads, meaning) && IsObject(o) && loads(Print(o)) == Object(meaning(Print(o)))
    requires BraceFree(pre) && SwallowsObject(pre, Print(o), post)
    ensures FirstObject(loads, Candidates(pre + Print(o) + post)) == Some(meaning(Print(o))) <==>
      !loads(AfterFirstLine(post)).Object? || loads(AfterFirstLine(post)).value == meaning(Print(o))
  {
    var text := pre + (Print(o) + post);
    assert text == pre + Print(o) + post;
    ObjectText(o);
    var within := SwallowedRest(pre, Print(o), post, text);
    OpenFenceIsNoObject(loads, meaning, pre, Print(o) + post);
    if !within {
      FenceLeads(StripFence(text));
      FencedIsNoObject(loads, meaning, StripFence(text));
      FencedIsNoObject(loads, meaning, "");
    }
    CandidatesRecoverIff(loads, meaning, pre, o, post);
  }

  lemma FenceLeads(s: string)
    requires OpensFence(s)
    ensures s[LeadingSpace(s)..] == s
  {
    assert s[0] == '`' && !IsSpace('`');
  }

  lemma OpenFenceIsNoObject<V(!new)>(loads: string -> Loaded<V>, meaning: string -> V, pre: string, rest: string)
    requires LoadsObjectTexts(loads, meaning) && !ClosesFenceLine(pre) && rest != "" && rest[0] == '{'
    ensures !loads(pre + rest).Object?
  {
    SameLead(pre, rest);
    var n := LeadingSpace(pre);
    assert (pre + rest)[n..] == pre[n..] + rest;
    FencedIsNoObject(loads, meaning, pre + rest);
  }

  lemma OneLineStaysFenced(pre: string, p: string, post: string, text: string)
    requires p != "" && p[0] == '{' && p[|p| - 1] == '}' && text == pre + (p + post)
    requires !ClosesFenceLine(pre) && '\n' !in p && '\n' !in post
    ensures OpensFence(StripFence(text))
  {
    var lead, end := SwallowedShape(pre, p, post, text);
    NoNewlineIn(pre, p, post, text, lead);
    FindInSlice(text, lead, end, |pre| + |p| + Find(post, '\n'));
  }

  /** On one line with its fence and no line after it, the object is not cut off at all. */
  lemma OneLineRecovers<V(!new)>(loads: string -> Loaded<V>, meaning: string -> V, pre: string, o: Value, post: string)
    requires LoadsObjectTexts(loads, meaning) && IsObject(o) && loads(Print(o)) == Object(meaning(Print(o)))
    requires BraceFree(pre) && !ClosesFenceLine(pre) && '\n' !in Print(o) && '\n' !in post
    ensures FirstObject(loads, Candidates(pre + Print(o) + post)) == Some(meaning(Print(o)))
  {
    var text := pre + (Print(o) + post);
    assert text == pre + Print(o) + post;
    ObjectText(o);
    OneLineStaysFenced(pre, Print(o), post, text);
    FenceLeads(StripFence(text));
    FencedIsNoObject(loads, meaning, StripFence(text));
    CandidatesRecoverIff(loads, meaning, pre, o, post);
  }

  /**
   * The remaining case does fail: a fence opened on the object's own line, with a second object after
   * it, makes the second object the answer, although the first one is there to be extracted.
   */
  lemma FenceOnObjectLineHidesIt<V>(loads: string -> Loaded<V>, first: V, second: V)
    requires loads("{}") == Object(first) && first != second
    requires loads("```{}\n{\"a\":1}").NotJson? && loads("{\"a\":1}") == Object(second)
    ensures Extract("```{}\n{\"a\":1}") == Some("{}")
    ensures FirstObject(loads, Candidates("```{}\n{\"a\":1}")) == Some(second)
    ensures FirstObject(loads, Candidates("```{}\n{\"a\":1}")) != Some(loads("{}").value)
  {
    var text := "```{}\n{\"a\":1}";
    FirstOfPair(text);
    FencedPairStrips(text, "{\"a\":1}");
    SecondCandidate(loads, text, "{\"a\":1}", Some("{}"));
  }

  lemma FirstOfPair(text: string)
    requires text == "```{}\n{\"a\":1}"
    ensures Extract(text) == Some("{}")
  {
    var o := Obj("", NoMembers);
    assert Print(o) == "{}";
    ExtractUndoesPrinting("```", o, "\n{\"a\":1}");
    assert "```" + Print(o) + "\n{\"a\":1}" == text;
  }

  lemma SecondCandidate<V>(loads: string -> Loaded<V>, text: string, clean: string, extracted: Option<string>)
    requires !loads(text).Object? && clean != "" && clean != text && loads(clean).Object?
    ensures FirstObject(loads, CandidatesOf(text, clean, extracted)) == Some(loads(clean).value)
  {
    var candidates := CandidatesOf(text, clean, extracted);
    assert candidates[0] == text && candidates[1..][0] == clean;
  }

  lemma TrimOfTight(s: string)
    requires s != "" && !IsSpace(s[0]) && !IsSpace(s[|s| - 1])
    ensures Trim(s) == s
  {
    assert LeadingSpace(s) == 0 && TrimmedEnd(s, 0) == |s|;
  }

  lemma FencedPairStrips(text: string, inner: string)
    requires text == "```{}\n{\"a\":1}" && inner == "{\"a\":1}"
    ensures StripFence(text) == inner
  {
    TrimOfTight(text);
    TrimOfTight(inner);
    assert text[5] == '\n' && forall i :: 0 <= i < 5 ==> text[i] != '\n';
    assert Find(text, '\n') == 5;
    assert text[6..] == inner;
    assert forall i :: 0 <= i < |inner| ==> inner[i] != '`';
    NoFence(inner, |inner| - 3);
  }

  lemma {:induction false} NoFence(s: string, last: int)
    requires last + 3 <= |s| && forall i :: 0 <= i < |s| ==> s[i] != '`'
    ensures LastFence(s, last).None?
    decreases last + 1
  {
    if last >= 0 {
      NoFence(s, last - 1);
    }
  }
}
