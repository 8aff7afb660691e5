/** Merging findings in `openstock-log-triage.py`. */
module Triage {
  import opened Common

  datatype Severity = Error | Warn
  datatype Category = Authentication | CiStatic | Input | Network | Runtime | Test

  datatype Finding = Finding(
    severity: Severity, category: Category, evidence: string, source: string,
    locations: seq<string>, occurrences: nat, nextStep: string)

  /** What findings are merged by. */
  datatype Key = Key(severity: Severity, category: Category, evidence: string, source: string)

  const MAX_LOCATIONS := 5

  function KeyOf(f: Finding): Key {
    Key(f.severity, f.category, f.evidence, f.source)
  }

  function SeverityText(s: Severity): string {
    match s case Error => "ERROR" case Warn => "WARN"
  }

  function CategoryText(c: Category): string {
    match c
    case Authentication => "AUTHENTICATION"
    case CiStatic => "CI_STATIC"
    case Input => "INPUT"
    case Network => "NETWORK"
    case Runtime => "RUNTIME"
    case Test => "TEST"
  }

  /** The sort key. */
  function SortKey(k: Key): seq<string> {
    [SeverityText(k.severity), CategoryText(k.category), k.source, k.evidence]
  }

  /** Lexicographic order on strings. */
  predicate TextLess(a: string, b: string) {
    b != "" && (a == "" || a[0] < b[0] || (a[0] == b[0] && TextLess(a[1..], b[1..])))
  }

  predicate TupleLess(a: seq<string>, b: seq<string>)
    requires |a| == |b|
  {
    a != [] && (TextLess(a[0], b[0]) || (a[0] == b[0] && TupleLess(a[1..], b[1..])))
  }

  predicate KeyLess(a: Key, b: Key) {
    TupleLess(SortKey(a), SortKey(b))
  }

  lemma {:induction false} TextLessIsOrder(a: string, b: string, c: string)
    ensures !TextLess(a, a)
    ensures TextLess(a, b) && TextLess(b, c) ==> TextLess(a, c)
    ensures TextLess(a, b) || TextLess(b, a) || a == b
  {
    if a != "" && b != "" {
      TextLessIsOrder(a[1..], b[1..], if c != "" then c[1..] else c);
      if a[0] == b[0] && a[1..] == b[1..] {
        assert a == [a[0]] + a[1..] == b;
      }
    } else if a != "" {
      TextLessIsOrder(a[1..], "", "");
    }
  }

  lemma {:induction false} TupleLessIsOrder(a: seq<string>, b: seq<string>, c: seq<string>)
    requires |a| == |b| == |c|
    ensures !TupleLess(a, a)
    ensures TupleLess(a, b) && TupleLess(b, c) ==> TupleLess(a, c)
    ensures TupleLess(a, b) || TupleLess(b, a) || a == b
  {
    if a != [] {
      TextLessIsOrder(a[0], b[0], c[0]);
      TupleLessIsOrder(a[1..], b[1..], c[1..]);
      assert a == [a[0]] + a[1..] && b == [b[0]] + b[1..];
    }
  }

  lemma SameCategory(a: Category, b: Category)
    requires CategoryText(a) == CategoryText(b)
    ensures a == b
  {
    assert CategoryText(a)[0] == CategoryText(b)[0];
  }

  lemma SameSeverity(a: Severity, b: Severity)
    requires SeverityText(a) == SeverityText(b)
    ensures a == b
  {
    assert SeverityText(a)[0] == SeverityText(b)[0];
  }

  lemma KeyLessIsOrder(a: Key, b: Key, c: Key)
    ensures !KeyLess(a, a)
    ensures KeyLess(a, b) && KeyLess(b, c) ==> KeyLess(a, c)
    ensures KeyLess(a, b) || KeyLess(b, a) || a == b
  {
    TupleLessIsOrder(SortKey(a), SortKey(b), SortKey(c));
    if SortKey(a) == SortKey(b) {
      assert SortKey(a)[0] == SortKey(b)[0] && SortKey(a)[1] == SortKey(b)[1];
      assert SortKey(a)[2] == SortKey(b)[2] && SortKey(a)[3] == SortKey(b)[3];
      SameSeverity(a.severity, b.severity);
      SameCategory(a.category, b.category);
    }
  }

  /** The place of a category in alphabetical order. */
  function Rank(c: Category): nat {
    match c
    case Authentication => 0
    case CiStatic => 1
    case Input => 2
    case Network => 3
    case Runtime => 4
    case Test => 5
  }

  lemma DifferentInitials(a: string, b: string)
    requires a != "" && b != "" && a[0] != b[0]
    ensures TextLess(a, b) <==> a[0] < b[0]
  {
  }

  lemma NamesAreAlphabetical(a: Category, b: Category)
    ensures TextLess(CategoryText(a), CategoryText(b)) <==> Rank(a) < Rank(b)
  {
    if a == b {
      TextLessIsOrder(CategoryText(a), CategoryText(a), CategoryText(a));
    } else {
      assert CategoryText(a)[0] != CategoryText(b)[0];
      DifferentInitials(CategoryText(a), CategoryText(b));
    }
  }

  lemma ErrorsComeFirst(a: Severity, b: Severity)
    ensures TextLess(SeverityText(a), SeverityText(b)) <==> a.Error? && b.Warn?
  {
    if a == b {
      TextLessIsOrder(SeverityText(a), SeverityText(a), SeverityText(a));
    } else {
      assert SeverityText(Error)[0] == 'E' && SeverityText(Warn)[0] == 'W';
      DifferentInitials(SeverityText(a), SeverityText(b));
    }
  }

  lemma FourFieldsLess(a: seq<string>, b: seq<string>)
    requires |a| == |b| == 4
    ensures TupleLess(a, b) <==>
      || TextLess(a[0], b[0])
      || (a[0] == b[0] && (TextLess(a[1], b[1])
           || (a[1] == b[1] && (TextLess(a[2], b[2]) || (a[2] == b[2] && TextLess(a[3], b[3]))))))
  {
    assert a[1..][1..] == a[2..] && a[2..][1..] == a[3..] && a[3..][1..] == [];
    assert b[1..][1..] == b[2..] && b[2..][1..] == b[3..] && b[3..][1..] == [];
    assert TupleLess(a[3..], b[3..]) <==> TextLess(a[3], b[3]);
    assert TupleLess(a[2..], b[2..]) <==> (TextLess(a[2], b[2]) || (a[2] == b[2] && TupleLess(a[3..], b[3..])));
    assert TupleLess(a[1..], b[1..]) <==> (TextLess(a[1], b[1]) || (a[1] == b[1] && TupleLess(a[2..], b[2..])));
  }

  /** Findings come by severity, errors first, then by category, source and evidence, each in alphabetical order. */
  lemma KeyLessIff(a: Key, b: Key)
    ensures KeyLess(a, b) <==>
      || (a.severity.Error? && b.severity.Warn?)
      || (a.severity == b.severity
           && (Rank(a.category) < Rank(b.category)
               || (a.category == b.category
                   && (TextLess(a.source, b.source)
                       || (a.source == b.source && TextLess(a.evidence, b.evidence))))))
  {
    FourFieldsLess(SortKey(a), SortKey(b));
    ErrorsComeFirst(a.severity, b.severity);
    NamesAreAlphabetical(a.category, b.category);
    if SeverityText(a.severity) == SeverityText(b.severity) {
      SameSeverity(a.severity, b.severity);
    }
    if CategoryText(a.category) == CategoryText(b.category) {
      SameCategory(a.category, b.category);
    }
  }

  /** Two texts compare as their first difference does, or the one that ends there comes first. */
  lemma {:induction false} FirstDifferenceDecides(a: string, b: string, k: nat)
    requires k <= |a| && k <= |b| && a[..k] == b[..k]
    requires k == |a| || k == |b| || a[k] != b[k]
    ensures TextLess(a, b) <==> k < |b| && (k == |a| || a[k] < b[k])
  {
    if k > 0 {
      assert a[0] == a[..k][0] == b[..k][0] == b[0];
      assert a[1..][..k - 1] == a[..k][1..] && b[1..][..k - 1] == b[..k][1..];
      FirstDifferenceDecides(a[1..], b[1..], k - 1);
    }
  }

  // ---------------------------------------------------------------------------
  // Groups: the reference definition
  // ---------------------------------------------------------------------------

  /** The findings with key `k`, in order. */
  function Group(findings: seq<Finding>, k: Key): seq<Finding> {
    if findings == [] then []
    else (if KeyOf(findings[0]) == k then [findings[0]] else []) + Group(findings[1..], k)
  }

  function TotalOccurrences(findings: seq<Finding>): nat {
    if findings == [] then 0 else findings[0].occurrences + TotalOccurrences(findings[1..])
  }

  function AllLocations(findings: seq<Finding>): seq<string> {
    if findings == [] then [] else findings[0].locations + AllLocations(findings[1..])
  }

  function FirstFive(s: seq<string>): seq<string> {
    if |s| <= MAX_LOCATIONS then s else s[..MAX_LOCATIONS]
  }

  /** One finding for a whole group. */
  function Merged(group: seq<Finding>): Finding
    requires group != []
  {
    group[0].(locations := if |group| == 1 then group[0].locations else FirstFive(AllLocations(group)),
              occurrences := TotalOccurrences(group))
  }

  lemma {:induction false} GroupOfConcat(a: seq<Finding>, b: seq<Finding>, k: Key)
    ensures Group(a + b, k) == Group(a, k) + Group(b, k)
  {
    if a == [] {
      assert a + b == b;
    } else {
      assert (a + b)[1..] == a[1..] + b;
      GroupOfConcat(a[1..], b, k);
    }
  }

  lemma {:induction false} GroupHasKey(findings: seq<Finding>, k: Key)
    ensures forall f :: f in Group(findings, k) ==> KeyOf(f) == k && f in findings
    ensures Group(findings, k) != [] <==> exists f :: f in findings && KeyOf(f) == k
  {
    if findings != [] {
      GroupHasKey(findings[1..], k);
      assert findings == [findings[0]] + findings[1..];
    }
  }

  lemma {:induction false} TotalOfConcat(a: seq<Finding>, b: seq<Finding>)
    ensures TotalOccurrences(a + b) == TotalOccurrences(a) + TotalOccurrences(b)
    ensures AllLocations(a + b) == AllLocations(a) + AllLocations(b)
  {
    if a == [] {
      assert a + b == b;
    } else {
      assert (a + b)[1..] == a[1..] + b;
      TotalOfConcat(a[1..], b);
    }
  }

  /** Truncating after every merge is truncating once. */
  lemma FirstFiveOfConcat(a: seq<string>, b: seq<string>)
    ensures FirstFive(FirstFive(a) + b) == FirstFive(a + b)
  {
  }

  /** One more member of a group. */
  lemma MergedOneMore(group: seq<Finding>, f: Finding)
    requires group != []
    ensures Merged(group + [f]) == Merged(group).(
      locations := FirstFive(Merged(group).locations + f.locations),
      occurrences := Merged(group).occurrences + f.occurrences)
  {
    TotalOfConcat(group, [f]);
    assert AllLocations([f]) == f.locations && TotalOccurrences([f]) == f.occurrences by {
      assert [f][1..] == [];
    }
    FirstFiveOfConcat(AllLocations(group), f.locations);
    if |group| == 1 {
      assert group[1..] == [] && AllLocations(group) == group[0].locations;
    }
  }

  /**
   * A merged finding has its first member's fields, the sum of the occurrences, and the first five of all locations in
   * the order of the members; a finding alone in its group keeps all its locations.
   */
  lemma MergedSays(group: seq<Finding>)
    requires group != []
    ensures var (m, all) := (Merged(group), AllLocations(group));
      && KeyOf(m) == KeyOf(group[0]) && m.nextStep == group[0].nextStep
      && (|group| == 1 ==> m == group[0])
      && (|group| > 1 ==> m.locations <= all && |m.locations| == if |all| < 5 then |all| else 5)
      && m.occurrences == TotalOccurrences(group)
  {
    if |group| == 1 {
      assert group == [group[0]];
      MergedAlone(group[0]);
    }
  }

  // ---------------------------------------------------------------------------
  // Deduplication
  // ---------------------------------------------------------------------------

  predicate KeysDistinct(unique: seq<Finding>) {
    forall i, j :: 0 <= i < j < |unique| ==> KeyOf(unique[i]) != KeyOf(unique[j])
  }

  ghost function Keys(s: seq<Finding>): set<Key> {
    set f | f in s :: KeyOf(f)
  }

  /** `unique` holds one finding per key of `findings`: its merged group. */
  ghost predicate Represents(unique: seq<Finding>, findings: seq<Finding>) {
    && KeysDistinct(unique)
    && (forall u :: u in unique ==> Group(findings, KeyOf(u)) != [] && u == Merged(Group(findings, KeyOf(u))))
    && Keys(unique) == Keys(findings)
  }

  predicate StrictlySorted(s: seq<Finding>) {
    forall i, j :: 0 <= i < j < |s| ==> KeyLess(KeyOf(s[i]), KeyOf(s[j]))
  }

  /** Index of the entry with key `k`, or the length. */
  function IndexOf(unique: seq<Finding>, k: Key): (at: nat)
    ensures at <= |unique|
    ensures at < |unique| ==> KeyOf(unique[at]) == k
    ensures forall i :: 0 <= i < at ==> KeyOf(unique[i]) != k
  {
    if unique == [] || KeyOf(unique[0]) == k then 0 else 1 + IndexOf(unique[1..], k)
  }

  /** One pass of the dictionary loop. */
  function Absorb(unique: seq<Finding>, f: Finding): seq<Finding> {
    var at := IndexOf(unique, KeyOf(f));
    if at == |unique| then unique + [f]
    else unique[at := unique[at].(locations := FirstFive(unique[at].locations + f.locations),
                                  occurrences := unique[at].occurrences + f.occurrences)]
  }

  lemma {:induction false} TotalOfUpdate(s: seq<Finding>, at: nat, f: Finding)
    requires at < |s|
    ensures TotalOccurrences(s[at := f]) + s[at].occurrences == TotalOccurrences(s) + f.occurrences
  {
    if at == 0 {
      assert s[0 := f][1..] == s[1..];
    } else {
      assert s[at := f][1..] == s[1..][at - 1 := f];
      TotalOfUpdate(s[1..], at - 1, f);
    }
  }

  lemma AbsorbKeepsTotal(unique: seq<Finding>, f: Finding)
    ensures TotalOccurrences(Absorb(unique, f)) == TotalOccurrences(unique) + f.occurrences
  {
    var at := IndexOf(unique, KeyOf(f));
    if at == |unique| {
      TotalOfConcat(unique, [f]);
      assert [f][1..] == [];
    } else {
      TotalOfUpdate(unique, at, Absorb(unique, f)[at]);
    }
  }

  lemma GroupOneMore(findings: seq<Finding>, f: Finding, k: Key)
    ensures Group(findings + [f], k) == if KeyOf(f) == k then Group(findings, k) + [f] else Group(findings, k)
  {
    GroupOfConcat(findings, [f], k);
    assert [f][1..] == [];
  }

  lemma KeysOneMore(s: seq<Finding>, f: Finding)
    ensures Keys(s + [f]) == Keys(s) + {KeyOf(f)}
  {
    var all := s + [f];
    assert f in all && forall g :: g in all <==> g in s || g == f;
    assert forall g :: g in s ==> g in all;
  }

  lemma AbsorbKeys(unique: seq<Finding>, f: Finding)
    requires KeysDistinct(unique)
    ensures KeysDistinct(Absorb(unique, f)) && Keys(Absorb(unique, f)) == Keys(unique) + {KeyOf(f)}
  {
    var next := Absorb(unique, f);
    var at := IndexOf(unique, KeyOf(f));
    if at == |unique| {
      KeysOneMore(unique, f);
    } else {
      assert forall i :: 0 <= i < |unique| ==> KeyOf(next[i]) == KeyOf(unique[i]);
      forall k
        ensures k in Keys(next) <==> k in Keys(unique)
      {
        if k in Keys(unique) {
          var i :| 0 <= i < |unique| && KeyOf(unique[i]) == k;
          assert next[i] in next;
        }
        if k in Keys(next) {
          var i :| 0 <= i < |next| && KeyOf(next[i]) == k;
          assert unique[i] in unique;
        }
      }
      assert unique[at] in unique;
    }
  }

  /** Entry `i` after one more finding. */
  lemma AbsorbedEntry(unique: seq<Finding>, findings: seq<Finding>, f: Finding, i: nat)
    requires Represents(unique, findings) && i < |Absorb(unique, f)|
    ensures var u := Absorb(unique, f)[i];
      Group(findings + [f], KeyOf(u)) != [] && u == Merged(Group(findings + [f], KeyOf(u)))
  {
    var next := Absorb(unique, f);
    var at := IndexOf(unique, KeyOf(f));
    GroupOneMore(findings, f, KeyOf(next[i]));
    if i < |unique| {
      assert unique[i] in unique;
      if i == at {
        MergedOneMore(Group(findings, KeyOf(f)), f);
      }
    } else {
      GroupHasKey(findings, KeyOf(f));
      assert KeyOf(f) !in Keys(unique);
      assert Group(findings, KeyOf(f)) == [] && [] + [f] == [f];
      MergedAlone(f);
    }
  }

  lemma MergedAlone(f: Finding)
    ensures Merged([f]) == f
  {
    assert [f][1..] == [] && TotalOccurrences([f]) == f.occurrences;
  }

  lemma AbsorbKeepsRepresents(unique: seq<Finding>, findings: seq<Finding>, f: Finding)
    requires Represents(unique, findings) && TotalOccurrences(unique) == TotalOccurrences(findings)
    ensures Represents(Absorb(unique, f), findings + [f])
    ensures TotalOccurrences(Absorb(unique, f)) == TotalOccurrences(findings + [f])
  {
    var next := Absorb(unique, f);
    AbsorbKeys(unique, f);
    KeysOneMore(findings, f);
    forall u | u in next
      ensures Group(findings + [f], KeyOf(u)) != [] && u == Merged(Group(findings + [f], KeyOf(u)))
    {
      var i :| 0 <= i < |next| && next[i] == u;
      AbsorbedEntry(unique, findings, f, i);
    }
    AbsorbKeepsTotal(unique, f);
    TotalOfConcat(findings, [f]);
    assert [f][1..] == [];
  }

  /** Insertion by sort key, after the entries that are smaller. */
  function Insert(sorted: seq<Finding>, f: Finding): seq<Finding> {
    if sorted == [] || KeyLess(KeyOf(f), KeyOf(sorted[0])) then [f] + sorted
    else [sorted[0]] + Insert(sorted[1..], f)
  }

  /** `sorted(unique.values(), key=...)`. */
  function SortFindings(s: seq<Finding>): seq<Finding> {
    if s == [] then [] else Insert(SortFindings(s[1..]), s[0])
  }

  lemma ConsSorts(head: Finding, rest: seq<Finding>)
    requires StrictlySorted(rest) && forall g :: g in rest ==> KeyLess(KeyOf(head), KeyOf(g))
    ensures StrictlySorted([head] + rest)
    ensures TotalOccurrences([head] + rest) == head.occurrences + TotalOccurrences(rest)
  {
    var r := [head] + rest;
    assert r[1..] == rest;
    forall i, j | 0 <= i < j < |r|
      ensures KeyLess(KeyOf(r[i]), KeyOf(r[j]))
    {
      assert r[j] == rest[j - 1] && (i > 0 ==> r[i] == rest[i - 1]);
    }
  }

  lemma {:induction false} InsertSorts(s: seq<Finding>, f: Finding)
    requires StrictlySorted(s) && forall g :: g in s ==> KeyOf(g) != KeyOf(f)
    ensures StrictlySorted(Insert(s, f))
    ensures forall g :: g in Insert(s, f) <==> g in s || g == f
    ensures TotalOccurrences(Insert(s, f)) == TotalOccurrences(s) + f.occurrences
  {
    if s == [] || KeyLess(KeyOf(f), KeyOf(s[0])) {
      forall g | g in s
        ensures KeyLess(KeyOf(f), KeyOf(g))
      {
        KeyLessIsOrder(KeyOf(f), KeyOf(s[0]), KeyOf(g));
      }
      ConsSorts(f, s);
    } else {
      var rest := Insert(s[1..], f);
      InsertSorts(s[1..], f);
      assert s == [s[0]] + s[1..];
      KeyLessIsOrder(KeyOf(f), KeyOf(s[0]), KeyOf(f));
      ConsSorts(s[0], rest);
    }
  }

  lemma {:induction false} SortSorts(s: seq<Finding>)
    requires KeysDistinct(s)
    ensures StrictlySorted(SortFindings(s))
    ensures forall g :: g in SortFindings(s) <==> g in s
    ensures TotalOccurrences(SortFindings(s)) == TotalOccurrences(s)
  {
    if s != [] {
      SortSorts(s[1..]);
      assert s == [s[0]] + s[1..];
      InsertSorts(SortFindings(s[1..]), s[0]);
    }
  }

  lemma StrictlySortedIsDistinct(s: seq<Finding>)
    requires StrictlySorted(s)
    ensures KeysDistinct(s)
  {
    forall i, j | 0 <= i < j < |s|
      ensures KeyOf(s[i]) != KeyOf(s[j])
    {
      KeyLessIsOrder(KeyOf(s[i]), KeyOf(s[i]), KeyOf(s[i]));
    }
  }

  ghost predicate RepresentsAll(unique: seq<Finding>, findings: seq<Finding>) {
    Represents(unique, findings) && TotalOccurrences(unique) == TotalOccurrences(findings)
  }

  lemma NothingYet()
    ensures RepresentsAll([], [])
  {
  }

  /** The loop body: a new key, or a merge into the entry of a known one. */
  method AddFinding(unique: seq<Finding>, f: Finding) returns (next: seq<Finding>)
    ensures next == Absorb(unique, f)
  {
    var at := IndexOf(unique, KeyOf(f));
    if at == |unique| {
      next := unique + [f];
    } else {
      var previous := unique[at];
      next := unique[at := previous.(locations := FirstFive(previous.locations + f.locations),
                                     occurrences := previous.occurrences + f.occurrences)];
    }
  }

  /**
   * `deduplicate`: strictly sorted, one merged finding per key, and no occurrence gained or lost.
   */
  method Deduplicate(findings: seq<Finding>) returns (r: seq<Finding>)
    ensures StrictlySorted(r)
    ensures Represents(r, findings)
    ensures TotalOccurrences(r) == TotalOccurrences(findings)
  {
    var unique: seq<Finding> := [];
    NothingYet();
    for n := 0 to |findings|
      invariant RepresentsAll(unique, findings[..n])
    {
      assert findings[..n + 1] == findings[..n] + [findings[n]];
      AbsorbKeepsRepresents(unique, findings[..n], findings[n]);
      unique := AddFinding(unique, findings[n]);
    }
    assert findings[..|findings|] == findings;
    r := SortFindings(unique);
    SortKeepsRepresents(unique, findings);
  }

  lemma SortKeepsRepresents(unique: seq<Finding>, findings: seq<Finding>)
    requires Represents(unique, findings)
    ensures StrictlySorted(SortFindings(unique)) && Represents(SortFindings(unique), findings)
    ensures TotalOccurrences(SortFindings(unique)) == TotalOccurrences(unique)
  {
    SortSorts(unique);
    StrictlySortedIsDistinct(SortFindings(unique));
  }

  // ---------------------------------------------------------------------------
  // Order independence
  // ---------------------------------------------------------------------------

  function WithoutLocations(s: seq<Finding>): (r: seq<Finding>)
    ensures |r| == |s| && forall i :: 0 <= i < |s| ==> r[i] == s[i].(locations := [])
  {
    if s == [] then [] else [s[0].(locations := [])] + WithoutLocations(s[1..])
  }

  /** The suggested next step is a function of the category, as every producer of findings makes it. */
  ghost predicate NextStepByCategory(findings: seq<Finding>, nextStep: Category -> string) {
    forall f :: f in findings ==> f.nextStep == nextStep(f.category)
  }

  lemma RemoveOne(s: seq<Finding>, j: nat)
    requires j < |s|
    ensures multiset(s[..j] + s[j + 1..]) == multiset(s) - multiset{s[j]}
  {
    assert s == s[..j] + ([s[j]] + s[j + 1..]);
    assert multiset(s) == multiset(s[..j]) + (multiset{s[j]} + multiset(s[j + 1..]));
  }

  /** Taking one finding out of a sequence takes it out of its group. */
  lemma GroupWithoutOne(s: seq<Finding>, j: nat, k: Key)
    requires j < |s|
    ensures var rest := s[..j] + s[j + 1..]; var here := KeyOf(s[j]) == k;
      && TotalOccurrences(Group(s, k)) == (if here then s[j].occurrences else 0) + TotalOccurrences(Group(rest, k))
      && (Group(s, k) == [] <==> !here && Group(rest, k) == [])
  {
    var f, left, right := s[j], s[..j], s[j + 1..];
    assert s == left + ([f] + right);
    GroupOfConcat(left, [f] + right, k);
    GroupOfConcat([f], right, k);
    GroupOfConcat(left, right, k);
    assert [f][1..] == [] && Group([f], k) == if KeyOf(f) == k then [f] else [];
    TotalOfConcat(Group(left, k), Group([f], k) + Group(right, k));
    TotalOfConcat(Group([f], k), Group(right, k));
    TotalOfConcat(Group(left, k), Group(right, k));
  }

  /** Taking the first finding of `a` out of `b` too leaves the same findings in both. */
  lemma RemoveFromBoth(a: seq<Finding>, b: seq<Finding>) returns (j: nat)
    requires a != [] && multiset(a) == multiset(b)
    ensures j < |b| && b[j] == a[0] && multiset(a[1..]) == multiset(b[..j] + b[j + 1..])
  {
    j := FirstIsThere(a, b);
    assert a[..0] + a[1..] == a[1..];
    RemoveOne(a, 0);
    RemoveOne(b, j);
  }

  lemma FirstIsThere(a: seq<Finding>, b: seq<Finding>) returns (j: nat)
    requires a != [] && multiset(a) == multiset(b)
    ensures j < |b| && b[j] == a[0]
  {
    assert a[0] in multiset(a);
    assert a[0] in b;
    j :| 0 <= j < |b| && b[j] == a[0];
  }

  lemma {:induction false} GroupTotalIgnoresOrder(a: seq<Finding>, b: seq<Finding>, k: Key)
    requires multiset(a) == multiset(b)
    ensures TotalOccurrences(Group(a, k)) == TotalOccurrences(Group(b, k))
    ensures Group(a, k) == [] <==> Group(b, k) == []
    decreases |a|
  {
    if a == [] {
      assert |multiset(b)| == |b|;
    } else {
      var j := RemoveFromBoth(a, b);
      assert a[..0] + a[1..] == a[1..];
      GroupWithoutOne(a, 0, k);
      GroupWithoutOne(b, j, k);
      GroupTotalIgnoresOrder(a[1..], b[..j] + b[j + 1..], k);
    }
  }

  lemma SomeKey(s: seq<Finding>)
    ensures s != [] ==> Keys(s) != {}
  {
    if s != [] {
      assert KeyOf(s[0]) in Keys(s);
    }
  }

  /** Two strictly sorted sequences with the same keys list them in the same order. */
  lemma {:induction false} SortedKeysAreUnique(a: seq<Finding>, b: seq<Finding>)
    requires StrictlySorted(a) && StrictlySorted(b) && Keys(a) == Keys(b)
    ensures |a| == |b| && forall i :: 0 <= i < |a| ==> KeyOf(a[i]) == KeyOf(b[i])
  {
    if a == [] {
      SomeKey(b);
    } else {
      assert KeyOf(a[0]) in Keys(a);
      assert b != [];
      SameFirstKey(a, b);
      TailKeys(a);
      TailKeys(b);
      SortedKeysAreUnique(a[1..], b[1..]);
    }
  }

  lemma TailKeys(s: seq<Finding>)
    requires s != [] && StrictlySorted(s)
    ensures Keys(s[1..]) == Keys(s) - {KeyOf(s[0])}
  {
    StrictlySortedIsDistinct(s);
    assert forall f :: f in s <==> f == s[0] || f in s[1..] by { assert s == [s[0]] + s[1..]; }
    forall f | f in s[1..]
      ensures KeyOf(f) != KeyOf(s[0])
    {
      var i :| 0 <= i < |s[1..]| && s[1..][i] == f;
      assert s[i + 1] == f;
    }
  }

  lemma SameFirstKey(a: seq<Finding>, b: seq<Finding>)
    requires StrictlySorted(a) && StrictlySorted(b) && a != [] && b != [] && Keys(a) == Keys(b)
    ensures KeyOf(a[0]) == KeyOf(b[0])
  {
    assert KeyOf(a[0]) in Keys(b) && KeyOf(b[0]) in Keys(a);
    var i :| 0 <= i < |b| && KeyOf(b[i]) == KeyOf(a[0]);
    var j :| 0 <= j < |a| && KeyOf(a[j]) == KeyOf(b[0]);
    KeyLessIsOrder(KeyOf(a[0]), KeyOf(b[0]), KeyOf(a[0]));
  }

  lemma SameKeys(a: seq<Finding>, b: seq<Finding>)
    requires multiset(a) == multiset(b)
    ensures forall f :: f in a <==> f in b
    ensures Keys(a) == Keys(b)
  {
    assert forall f :: f in a <==> f in multiset(a);
    assert forall f :: f in b <==> f in multiset(b);
  }

  /** One entry of two results for the same findings in different orders. */
  lemma EntryIgnoresOrder(a: seq<Finding>, b: seq<Finding>, k: Key, nextStep: Category -> string)
    requires multiset(a) == multiset(b) && NextStepByCategory(a, nextStep) && Group(a, k) != []
    ensures Group(b, k) != []
    ensures Merged(Group(a, k)).(locations := []) == Merged(Group(b, k)).(locations := [])
  {
    SameKeys(a, b);
    GroupTotalIgnoresOrder(a, b, k);
    GroupHasKey(a, k);
    GroupHasKey(b, k);
    assert Group(a, k)[0] in Group(a, k) && Group(b, k)[0] in Group(b, k);
  }

  /** Up to locations, the result does not depend on the order of the findings. */
  lemma DeduplicationIgnoresOrder(a: seq<Finding>, b: seq<Finding>, ra: seq<Finding>, rb: seq<Finding>,
                                  nextStep: Category -> string)
    requires multiset(a) == multiset(b) && NextStepByCategory(a, nextStep)
    requires StrictlySorted(ra) && Represents(ra, a) && StrictlySorted(rb) && Represents(rb, b)
    ensures WithoutLocations(ra) == WithoutLocations(rb)
  {
    SameKeys(a, b);
    SortedKeysAreUnique(ra, rb);
    forall i | 0 <= i < |ra|
      ensures WithoutLocations(ra)[i] == WithoutLocations(rb)[i]
    {
      assert ra[i] in ra && rb[i] in rb;
      EntryIgnoresOrder(a, b, KeyOf(ra[i]), nextStep);
    }
  }
}
