/**
 Dotted versions, comma-separated range expressions and the applicability verdict over them
 (affected_version_range.py), from the characters up.
 */
module VersionRange {
  import opened Wrappers
  import opened StableSort
  import TextOrder
  import opened Whitespace

  // ---------------------------------------------------------------- text

  function Split(s: string, separator: char): (r: seq<string>)
    ensures r != []
  {
    if s == "" then [""]
    else
      var rest := Split(s[1..], separator);
      if s[0] == separator then [""] + rest else [[s[0]] + rest[0]] + rest[1..]
  }

  predicate IsNumber(s: string) {
    s != "" && forall i | 0 <= i < |s| :: '0' <= s[i] <= '9'
  }

  function Number(s: string): nat
    requires s != "" ==> IsNumber(s)
  {
    if s == "" then 0 else 10 * Number(s[..|s| - 1]) + (s[|s| - 1] as int - '0' as int)
  }

  // ---------------------------------------------------------------- versions

  const PARTS := 6

  type Version = v: seq<nat> | |v| == 6 witness [0, 0, 0, 0, 0, 0]

  function Padded(parts: seq<string>): Version
    requires |parts| <= PARTS && forall i | 0 <= i < |parts| :: IsNumber(parts[i])
  {
    seq(PARTS, i requires 0 <= i < PARTS => if i < |parts| then Number(parts[i]) else 0)
  }

  /** `_version_tuple`: one to six dotted numbers, padded with zeros. */
  function VersionOf(text: string): Option<Version> {
    var parts := Split(Strip(text), '.');
    if |parts| <= PARTS && forall i | 0 <= i < |parts| :: IsNumber(parts[i]) then Some(Padded(parts)) else None
  }

  /** How Python compares tuples of one length. */
  predicate Before(a: seq<nat>, b: seq<nat>) {
    a != [] && b != [] && (a[0] < b[0] || (a[0] == b[0] && Before(a[1..], b[1..])))
  }

  lemma {:induction false} BeforeTransitive(a: seq<nat>, b: seq<nat>, c: seq<nat>)
    requires Before(a, b) && Before(b, c)
    ensures Before(a, c)
  {
    if a[0] == b[0] == c[0] { BeforeTransitive(a[1..], b[1..], c[1..]); }
  }

  lemma {:induction false} BeforeTotal(a: seq<nat>, b: seq<nat>)
    requires |a| == |b|
    ensures Before(a, b) || a == b || Before(b, a)
    ensures !(Before(a, b) && Before(b, a)) && (a == b ==> !Before(a, b))
  {
    if a != [] {
      BeforeTotal(a[1..], b[1..]);
      assert a == [a[0]] + a[1..] && b == [b[0]] + b[1..];
    }
  }

  predicate NotAfter(a: Version, b: Version) {
    a == b || Before(a, b)
  }

  // ---------------------------------------------------------------- ranges

  datatype Operator = Equal | Less | LessOrEqual | Greater | GreaterOrEqual

  datatype Clause = Clause(operator: Operator, target: Version)

  predicate StartsWith(s: string, prefix: string) {
    |prefix| <= |s| && s[..|prefix|] == prefix
  }

  /** The operator a clause starts with, and what follows it. */
  function TakeOperator(s: string): (Operator, string) {
    if StartsWith(s, "<=") then (LessOrEqual, s[2..])
    else if StartsWith(s, ">=") then (GreaterOrEqual, s[2..])
    else if StartsWith(s, "<") then (Less, s[1..])
    else if StartsWith(s, ">") then (Greater, s[1..])
    else if StartsWith(s, "==") then (Equal, s[2..])
    else if StartsWith(s, "=") then (Equal, s[1..])
    else (Equal, s)
  }

  function ParseClause(text: string): Option<Clause> {
    var (operator, rest) := TakeOperator(Strip(text));
    match VersionOf(rest)
    case None => None
    case Some(target) => Some(Clause(operator, target))
  }

  predicate Meets(v: Version, c: Clause) {
    match c.operator
    case Equal => v == c.target
    case Less => Before(v, c.target)
    case LessOrEqual => NotAfter(v, c.target)
    case Greater => Before(c.target, v)
    case GreaterOrEqual => NotAfter(c.target, v)
  }

  /** `_clause_matches`; `None` for a clause that does not parse. */
  function ClauseMatches(v: Version, text: string): Option<bool> {
    match ParseClause(text)
    case None => None
    case Some(c) => Some(Meets(v, c))
  }

  /** `_range_matches`: one to four non-empty clauses, all of which must hold. */
  function RangeMatches(v: Version, expression: string): Option<bool> {
    var clauses := Split(expression, ',');
    if |clauses| > 4 || exists i | 0 <= i < |clauses| :: Strip(clauses[i]) == "" then None
    else if exists i | 0 <= i < |clauses| :: ClauseMatches(v, Strip(clauses[i])) == None then None
    else Some(forall i | 0 <= i < |clauses| :: ClauseMatches(v, Strip(clauses[i])) == Some(true))
  }

  const ZERO: Version := [0, 0, 0, 0, 0, 0]

  predicate Parseable(expression: string) {
    RangeMatches(ZERO, expression) != None
  }

  predicate Within(v: Version, expression: string) {
    RangeMatches(v, expression) == Some(true)
  }

  /** Whether a range parses does not depend on the version asked about, so probing with zeros is sound. */
  lemma ProbeIsSound(v: Version, w: Version, expression: string)
    ensures RangeMatches(v, expression) == None <==> RangeMatches(w, expression) == None
  {
    var clauses := Split(expression, ',');
    forall i | 0 <= i < |clauses|
      ensures ClauseMatches(v, Strip(clauses[i])) == None <==> ClauseMatches(w, Strip(clauses[i])) == None
    {
    }
  }

  lemma ClauseIsConvex(a: Version, b: Version, c: Version, clause: Clause)
    requires NotAfter(a, b) && NotAfter(b, c) && Meets(a, clause) && Meets(c, clause)
    ensures Meets(b, clause)
  {
    var t := clause.target;
    BeforeTotal(a, b);
    BeforeTotal(b, c);
    if Before(a, b) && Before(b, c) { BeforeTransitive(a, b, c); BeforeTotal(a, c); }
    if Before(t, a) && Before(a, b) { BeforeTransitive(t, a, b); }
    if Before(b, c) && Before(c, t) { BeforeTransitive(b, c, t); }
  }

  /** A range contains every version between two versions it contains. */
  lemma RangeIsConvex(a: Version, b: Version, c: Version, expression: string)
    requires NotAfter(a, b) && NotAfter(b, c) && Within(a, expression) && Within(c, expression)
    ensures Within(b, expression)
  {
    ProbeIsSound(a, b, expression);
    var clauses := Split(expression, ',');
    forall i | 0 <= i < |clauses| ensures ClauseMatches(b, Strip(clauses[i])) == Some(true) {
      assert ClauseMatches(a, Strip(clauses[i])) == Some(true) && ClauseMatches(c, Strip(clauses[i])) == Some(true);
      ClauseIsConvex(a, b, c, ParseClause(Strip(clauses[i])).value);
    }
  }

  // ---------------------------------------------------------------- trailing zeros

  lemma {:induction false} SplitAppends(s: string, tail: string, separator: char)
    requires forall i | 0 <= i < |tail| :: tail[i] != separator
    ensures Split(s + [separator] + tail, separator) == Split(s, separator) + [tail]
  {
    var all := s + [separator] + tail;
    if s == "" {
      assert all[1..] == tail;
      SplitWhole(tail, separator);
    } else {
      assert all[1..] == s[1..] + [separator] + tail;
      SplitAppends(s[1..], tail, separator);
    }
  }

  lemma {:induction false} SplitWhole(s: string, separator: char)
    requires forall i | 0 <= i < |s| :: s[i] != separator
    ensures Split(s, separator) == [s]
  {
    if s != "" {
      SplitWhole(s[1..], separator);
      assert s == [s[0]] + s[1..];
    }
  }

  lemma {:induction false} SplitStarts(s: string, separator: char)
    requires s != "" && IsNumber(Split(s, separator)[0])
    ensures '0' <= s[0] <= '9'
  {
    if s[0] != separator { assert Split(s, separator)[0][0] == s[0]; }
  }

  /** Writing one more zero component, where there is room for it, names the same version. */
  lemma TrailingZeroIsIrrelevant(text: string)
    requires VersionOf(text).Some? && |Split(Strip(text), '.')| < PARTS
    ensures VersionOf(Strip(text) + ".0") == VersionOf(text)
  {
    var s := Strip(text);
    var parts := Split(s, '.');
    assert s + ".0" == s + ['.'] + "0";
    SplitAppends(s, "0", '.');
    assert IsNumber(parts[0]);
    assert s == "" ==> parts == [""];
    SplitStarts(s, '.');
    assert Strip(s + ".0") == s + ".0";
    assert Number("0") == 0 by { assert "0"[..0] == ""; }
    assert Padded(parts + ["0"]) == Padded(parts);
  }

  // ---------------------------------------------------------------- the evidence for a finding

  datatype Applicability = NotAvailable | Unknown | Mixed | Affected | NotAffected

  datatype Binding = NoRanges | AmbiguousMultiCve | NoCveBinding | SingleCve

  datatype Evidence = Evidence(
    ranges: seq<string>,
    observed: seq<string>,
    matching: seq<string>,
    outside: seq<string>,
    unparseable: seq<string>,
    state: Applicability,
    binding: Binding,
    supported: bool,
    trusted: bool)

  /** Some range that parses contains the version. */
  predicate Covered(text: string, ranges: seq<string>) {
    VersionOf(text).Some? && AnyContains(ranges, VersionOf(text).value)
  }

  predicate AnyContains(ranges: seq<string>, v: Version) {
    exists r | r in ranges :: Within(v, r)
  }

  predicate AnyParses(ranges: seq<string>) {
    exists r | r in ranges :: Parseable(r)
  }

  /** What the ranges of one vulnerability say about the observed versions. */
  function Verdict(cves: nat, ranges: seq<string>, observed: seq<string>): Applicability {
    if ranges == [] then NotAvailable
    else if cves != 1 || observed == [] || !AnyParses(ranges) || (exists v | v in observed :: VersionOf(v) == None)
    then Unknown
    else if forall v | v in observed :: Covered(v, ranges) then Affected
    else if forall v | v in observed :: !Covered(v, ranges) then NotAffected
    else Mixed
  }

  function Select(s: seq<string>, keep: string -> bool): seq<string> {
    if s == [] then []
    else Select(s[..|s| - 1], keep) + if keep(s[|s| - 1]) then [s[|s| - 1]] else []
  }

  lemma {:induction false} SelectExactly(s: seq<string>, keep: string -> bool)
    ensures forall x :: x in Select(s, keep) <==> x in s && keep(x)
  {
    if s != [] {
      SelectExactly(s[..|s| - 1], keep);
      assert s == s[..|s| - 1] + [s[|s| - 1]];
    }
  }

  function Clean(raw: seq<string>): seq<string> {
    if raw == [] then []
    else Clean(raw[..|raw| - 1]) + if Strip(raw[|raw| - 1]) != "" then [Strip(raw[|raw| - 1])] else []
  }

  /** First occurrences only. */
  function Distinct(s: seq<string>): seq<string> {
    if s == [] then []
    else
      var before := Distinct(s[..|s| - 1]);
      if s[|s| - 1] in before then before else before + [s[|s| - 1]]
  }

  const MAX_RANGES := 16

  function UsedRanges(raw: seq<string>): seq<string> {
    Clean(if |raw| <= MAX_RANGES then raw else raw[..MAX_RANGES])
  }

  function Observed(raw: seq<string>): seq<string> {
    Sort(Distinct(Clean(raw)), TextOrder.Leq)
  }

  predicate Parses(r: string) {
    Parseable(r)
  }

  predicate Fails(r: string) {
    !Parseable(r)
  }

  lemma CoveredByParseable(v: Version, ranges: seq<string>)
    ensures AnyContains(ranges, v) <==> AnyContains(Select(ranges, Parses), v)
  {
    SelectExactly(ranges, Parses);
    forall r | Within(v, r) ensures Parseable(r) { ProbeIsSound(v, ZERO, r); }
  }

  /** Splits the ranges into those that parse and those that do not, by probing with zeros. */
  method ProbeRanges(ranges: seq<string>) returns (parseable: seq<string>, unparseable: seq<string>)
    ensures parseable == Select(ranges, Parses)
    ensures unparseable == Select(ranges, Fails)
  {
    parseable, unparseable := [], [];
    for i := 0 to |ranges|
      invariant parseable == Select(ranges[..i], Parses)
      invariant unparseable == Select(ranges[..i], Fails)
    {
      assert ranges[..i + 1][..i] == ranges[..i];
      if RangeMatches(ZERO, ranges[i]) == None {
        unparseable := unparseable + [ranges[i]];
      } else {
        parseable := parseable + [ranges[i]];
      }
    }
    assert ranges[..|ranges|] == ranges;
  }

  predicate IsOutside(v: string, ranges: seq<string>) {
    VersionOf(v).Some? && !Covered(v, ranges)
  }

  function CoveredBy(ranges: seq<string>): string -> bool {
    v => Covered(v, ranges)
  }

  function OutsideOf(ranges: seq<string>): string -> bool {
    v => IsOutside(v, ranges)
  }

  lemma SelectStep(s: seq<string>, i: nat, keep: string -> bool)
    requires i < |s|
    ensures Select(s[..i + 1], keep) == Select(s[..i], keep) + if keep(s[i]) then [s[i]] else []
  {
    assert s[..i + 1][..i] == s[..i];
  }

  /** What the classification of the first `i` observed versions has found. */
  ghost predicate Classified(observed: seq<string>, ranges: seq<string>, i: nat, matching: seq<string>,
                             outside: seq<string>, unparsed: bool)
  {
    && i <= |observed|
    && matching == Select(observed[..i], CoveredBy(ranges))
    && outside == (if AnyParses(ranges) then Select(observed[..i], OutsideOf(ranges)) else [])
    && (unparsed <==> exists k | 0 <= k < i :: VersionOf(observed[k]) == None)
  }

  /** How one more version changes the classification. */
  lemma ClassifyNext(observed: seq<string>, ranges: seq<string>, i: nat, matching: seq<string>, outside: seq<string>,
                     unparsed: bool)
    requires i < |observed| && Classified(observed, ranges, i, matching, outside, unparsed)
    ensures VersionOf(observed[i]) == None ==> Classified(observed, ranges, i + 1, matching, outside, true)
    ensures Covered(observed[i], ranges) ==>
      Classified(observed, ranges, i + 1, matching + [observed[i]], outside, unparsed)
    ensures IsOutside(observed[i], ranges) && AnyParses(ranges) ==>
      Classified(observed, ranges, i + 1, matching, outside + [observed[i]], unparsed)
    ensures IsOutside(observed[i], ranges) && !AnyParses(ranges) ==>
      Classified(observed, ranges, i + 1, matching, outside, unparsed)
  {
    SelectStep(observed, i, CoveredBy(ranges));
    SelectStep(observed, i, OutsideOf(ranges));
  }

  method ClassifyVersions(observed: seq<string>, ranges: seq<string>, parseable: seq<string>)
    returns (matching: seq<string>, outside: seq<string>, unparsed: bool)
    requires parseable == Select(ranges, Parses)
    ensures Classified(observed, ranges, |observed|, matching, outside, unparsed)
  {
    matching, outside, unparsed := [], [], false;
    SelectsNothing(ranges, Parses);
    for i := 0 to |observed|
      invariant Classified(observed, ranges, i, matching, outside, unparsed)
    {
      ClassifyNext(observed, ranges, i, matching, outside, unparsed);
      var version := VersionOf(observed[i]);
      if version == None {
        unparsed := true;
        continue;
      }
      CoveredByParseable(version.value, ranges);
      if AnyContains(parseable, version.value) {
        matching := matching + [observed[i]];
      } else if parseable != [] {
        outside := outside + [observed[i]];
      }
    }
  }

  /** Where every version parses, the verdict asks whether some are covered and whether some are not. */
  lemma VerdictByCases(ranges: seq<string>, observed: seq<string>)
    requires ranges != [] && observed != [] && AnyParses(ranges) && forall v | v in observed :: VersionOf(v).Some?
    ensures var some := exists v | v in observed :: Covered(v, ranges);
      var others := exists v | v in observed :: IsOutside(v, ranges);
      && (some || others)
      && Verdict(1, ranges, observed) == if some && others then Mixed else if some then Affected else NotAffected
  {
    assert observed[0] in observed;
    assert Covered(observed[0], ranges) || IsOutside(observed[0], ranges);
  }

  lemma SelectsNothing(s: seq<string>, keep: string -> bool)
    ensures Select(s, keep) == [] <==> forall x | x in s :: !keep(x)
  {
    SelectExactly(s, keep);
    assert Select(s, keep) != [] ==> Select(s, keep)[0] in Select(s, keep);
  }

  /** The order in which the code looks at what its loops left behind. */
  function Decide(observed: seq<string>, unparsed: bool, parseable: seq<string>, matching: seq<string>,
                  outside: seq<string>): Applicability
  {
    if observed == [] || unparsed || parseable == [] then Unknown
    else if matching != [] && outside != [] then Mixed
    else if matching != [] then Affected
    else if outside != [] then NotAffected
    else Unknown
  }

  lemma DecideIsVerdict(ranges: seq<string>, observed: seq<string>, unparsed: bool, parseable: seq<string>,
                        matching: seq<string>, outside: seq<string>)
    requires ranges != [] && (parseable == [] <==> !AnyParses(ranges))
    requires unparsed <==> exists v | v in observed :: VersionOf(v) == None
    requires matching == [] <==> forall v | v in observed :: !Covered(v, ranges)
    requires parseable != [] ==> (outside == [] <==> forall v | v in observed :: !IsOutside(v, ranges))
    ensures Decide(observed, unparsed, parseable, matching, outside) == Verdict(1, ranges, observed)
  {
    if observed != [] && !unparsed && parseable != [] { VerdictByCases(ranges, observed); }
  }

  lemma ClassifiedIsVerdict(ranges: seq<string>, observed: seq<string>, unparsed: bool, parseable: seq<string>,
                            matching: seq<string>, outside: seq<string>)
    requires ranges != [] && parseable == Select(ranges, Parses)
    requires Classified(observed, ranges, |observed|, matching, outside, unparsed)
    ensures Decide(observed, unparsed, parseable, matching, outside) == Verdict(1, ranges, observed)
  {
    assert observed[..|observed|] == observed;
    SelectsNothing(ranges, Parses);
    SelectsNothing(observed, CoveredBy(ranges));
    SelectsNothing(observed, OutsideOf(ranges));
    DecideIsVerdict(ranges, observed, unparsed, parseable, matching, outside);
  }

  method BuildEvidence(cves: nat, rawRanges: seq<string>, rawObserved: seq<string>, verified: bool)
    returns (e: Evidence)
    ensures e.ranges == UsedRanges(rawRanges) && e.observed == Observed(rawObserved)
    ensures e.state == Verdict(cves, e.ranges, e.observed)
    ensures e.binding ==
      if e.ranges == [] then NoRanges
      else if cves > 1 then AmbiguousMultiCve else if cves == 0 then NoCveBinding else SingleCve
    ensures e.binding == SingleCve ==>
      && e.matching == Select(e.observed, CoveredBy(e.ranges))
      && e.outside == (if AnyParses(e.ranges) then Select(e.observed, OutsideOf(e.ranges)) else [])
      && e.unparseable == Select(e.ranges, Fails)
    ensures e.supported <==> e.state == Affected && forall r | r in e.ranges :: Parseable(r)
    ensures e.trusted <==> e.supported && verified
  {
    var ranges, observed := UsedRanges(rawRanges), Observed(rawObserved);
    if ranges == [] { return Evidence([], observed, [], [], [], NotAvailable, NoRanges, false, false); }
    if cves != 1 {
      return Evidence(ranges, observed, [], [], [], Unknown,
                      if cves > 1 then AmbiguousMultiCve else NoCveBinding, false, false);
    }
    var parseable, unparseable := ProbeRanges(ranges);
    var matching, outside, unparsed := ClassifyVersions(observed, ranges, parseable);
    assert observed[..|observed|] == observed;
    ClassifiedIsVerdict(ranges, observed, unparsed, parseable, matching, outside);
    var state := Decide(observed, unparsed, parseable, matching, outside);
    var supported := state == Affected && unparseable == [];
    assert unparseable == [] <==> forall r | r in ranges :: Parseable(r) by { SelectsNothing(ranges, Fails); }
    return Evidence(ranges, observed, matching, outside, unparseable, state, SingleCve, supported,
                    supported && verified);
  }

  /** The verdict depends only on which ranges and which versions there are, not on their order or repetition. */
  lemma VerdictOfSets(cves: nat, ranges: seq<string>, more: seq<string>, observed: seq<string>, seen: seq<string>)
    requires forall r :: r in ranges <==> r in more
    requires forall v :: v in observed <==> v in seen
    ensures Verdict(cves, ranges, observed) == Verdict(cves, more, seen)
  {
    assert ranges != [] ==> ranges[0] in more;
    assert more != [] ==> more[0] in ranges;
    assert observed != [] ==> observed[0] in seen;
    assert seen != [] ==> seen[0] in observed;
    assert forall v :: Covered(v, ranges) <==> Covered(v, more);
  }

  /** Further ranges can extend the affected versions but never take one back. */
  lemma MoreRangesKeepAffected(cves: nat, ranges: seq<string>, more: seq<string>, observed: seq<string>)
    requires Verdict(cves, ranges, observed) == Affected
    ensures Verdict(cves, ranges + more, observed) == Affected
  {
    var r :| r in ranges && Parseable(r);
    assert r in ranges + more;
    forall v | v in observed ensures Covered(v, ranges + more) {
      var s :| s in ranges && Within(VersionOf(v).value, s);
      assert s in ranges + more;
    }
  }
}
