/**
 What version and range texts mean (affected_version_range.py): the parser reads back what is written, each
 operator selects the versions on its side of the target, and a comma intersects.
 */
module VersionText {
  import opened Wrappers
  import opened Whitespace
  import opened VersionRange
  import opened StableSort
  import TextOrder

  // ---------------------------------------------------------------- writing versions

  function Digit(n: nat): char
    requires n < 10
  {
    ('0' as int + n) as char
  }

  function Digits(n: nat): string {
    if n < 10 then [Digit(n)] else Digits(n / 10) + [Digit(n % 10)]
  }

  lemma {:induction false} NumberOfDigits(n: nat)
    ensures IsNumber(Digits(n)) && Number(Digits(n)) == n
  {
    if n < 10 {
      assert Digits(n)[..0] == "";
    } else {
      NumberOfDigits(n / 10);
      assert Digits(n)[..|Digits(n)| - 1] == Digits(n / 10);
    }
  }

  /** The numbers with dots between them. */
  function Written(parts: seq<nat>): string
    requires parts != []
  {
    if |parts| == 1 then Digits(parts[0]) else Written(parts[..|parts| - 1]) + "." + Digits(parts[|parts| - 1])
  }

  function AllDigits(parts: seq<nat>): seq<string> {
    seq(|parts|, i requires 0 <= i < |parts| => Digits(parts[i]))
  }

  predicate VersionChar(c: char) {
    c == '.' || '0' <= c <= '9'
  }

  lemma {:induction false} WrittenSplits(parts: seq<nat>)
    requires parts != []
    ensures Split(Written(parts), '.') == AllDigits(parts)
    ensures Written(parts) != "" && forall i | 0 <= i < |Written(parts)| :: VersionChar(Written(parts)[i])
  {
    var n := |parts| - 1;
    NumberOfDigits(parts[n]);
    if n == 0 {
      SplitWhole(Digits(parts[0]), '.');
    } else {
      WrittenSplits(parts[..n]);
      assert Written(parts) == Written(parts[..n]) + ['.'] + Digits(parts[n]);
      SplitAppends(Written(parts[..n]), Digits(parts[n]), '.');
      assert AllDigits(parts) == AllDigits(parts[..n]) + [Digits(parts[n])];
    }
  }

  function Filled(parts: seq<nat>): Version
    requires |parts| <= PARTS
  {
    seq(PARTS, i requires 0 <= i < PARTS => if i < |parts| then parts[i] else 0)
  }

  lemma WrittenStrips(parts: seq<nat>, left: string, right: string)
    requires parts != [] && Blank(left) && Blank(right)
    ensures Strip(left + Written(parts) + right) == Written(parts)
  {
    WrittenSplits(parts);
    var text := Written(parts);
    assert VersionChar(text[0]) && VersionChar(text[|text| - 1]);
    StripOf(left, text, right);
  }

  lemma AllDigitsRead(parts: seq<nat>)
    requires |parts| <= PARTS
    ensures forall i | 0 <= i < |parts| :: IsNumber(AllDigits(parts)[i])
    ensures Padded(AllDigits(parts)) == Filled(parts)
  {
    forall i | 0 <= i < |parts| ensures IsNumber(AllDigits(parts)[i]) && Number(AllDigits(parts)[i]) == parts[i] {
      NumberOfDigits(parts[i]);
    }
  }

  /** A version of up to six numbers is read back as written, with any white space around it. */
  lemma WrittenVersionIsRead(parts: seq<nat>, left: string, right: string)
    requires 1 <= |parts| <= PARTS && Blank(left) && Blank(right)
    ensures VersionOf(left + Written(parts) + right) == Some(Filled(parts))
  {
    WrittenSplits(parts);
    WrittenStrips(parts, left, right);
    AllDigitsRead(parts);
  }

  /** A seventh number is too many. */
  lemma LongVersionIsRefused(parts: seq<nat>)
    requires |parts| > PARTS
    ensures VersionOf(Written(parts)) == None
  {
    WrittenSplits(parts);
    WrittenStrips(parts, "", "");
    assert "" + Written(parts) + "" == Written(parts);
  }

  /** The first number in which two versions differ decides. */
  lemma {:induction false} BeforeExactly(a: seq<nat>, b: seq<nat>)
    requires |a| == |b|
    ensures Before(a, b) <==> exists i | 0 <= i < |a| :: a[..i] == b[..i] && a[i] < b[i]
  {
    if a != [] {
      BeforeExactly(a[1..], b[1..]);
      if a[0] == b[0] {
        forall i | 1 <= i < |a| ensures a[..i] == b[..i] <==> a[1..][..i - 1] == b[1..][..i - 1] {
          assert a[..i] == [a[0]] + a[1..][..i - 1] && b[..i] == [b[0]] + b[1..][..i - 1];
        }
        if i :| 0 <= i < |a[1..]| && a[1..][..i] == b[1..][..i] && a[1..][i] < b[1..][i] {
          assert a[..i + 1] == b[..i + 1] && a[i + 1] < b[i + 1];
        }
        if i :| 0 <= i < |a| && a[..i] == b[..i] && a[i] < b[i] {
          assert a[1..][..i - 1] == b[1..][..i - 1] && a[1..][i - 1] < b[1..][i - 1];
        }
      } else {
        assert a[..0] == b[..0];
        forall i | 1 <= i < |a| ensures a[..i] != b[..i] { assert a[..i][0] != b[..i][0]; }
      }
    }
  }

  // ---------------------------------------------------------------- texts that parse

  lemma {:induction false} SplitChars(s: string, separator: char, i: nat) returns (p: string)
    requires i < |s| && s[i] != separator
    ensures p in Split(s, separator) && s[i] in p
  {
    var parts, rest := Split(s, separator), Split(s[1..], separator);
    if i == 0 {
      p := parts[0];
      assert p[0] == s[0];
    } else {
      assert s[1..][i - 1] == s[i];
      p := SplitChars(s[1..], separator, i - 1);
      var k :| 0 <= k < |rest| && rest[k] == p;
      if s[0] == separator {
        assert parts[k + 1] == p;
      } else if k == 0 {
        p := parts[0];
        var j :| 0 <= j < |rest[0]| && rest[0][j] == s[i];
        assert p[j + 1] == s[i];
      } else {
        assert parts[k] == p;
      }
    }
  }

  /** A text that parses consists of digits and dots, starting with a digit, up to white space around it. */
  lemma VersionChars(t: string)
    requires VersionOf(t).Some?
    ensures Strip(t) != "" && '0' <= Strip(t)[0] <= '9'
    ensures forall c | c in Strip(t) :: VersionChar(c)
    ensures forall c | c in t :: VersionChar(c) || IsSpace(c)
  {
    var s := Strip(t);
    var parts := Split(s, '.');
    assert IsNumber(parts[0]);
    assert s == "" ==> parts == [""];
    SplitStarts(s, '.');
    forall c | c in s ensures VersionChar(c) {
      var i :| 0 <= i < |s| && s[i] == c;
      if c != '.' {
        var p := SplitChars(s, '.', i);
        assert IsNumber(p);
      }
    }
    var left, right := Margins(t);
    forall c | c in t ensures VersionChar(c) || IsSpace(c) {
      assert c in left || c in s || c in right;
    }
  }

  // ---------------------------------------------------------------- operators

  /** The spellings of the operators; no operator at all asks for equality. */
  predicate Spells(text: string, operator: Operator) {
    || (operator == Equal && (text == "" || text == "=" || text == "=="))
    || (operator == Less && text == "<") || (operator == LessOrEqual && text == "<=")
    || (operator == Greater && text == ">") || (operator == GreaterOrEqual && text == ">=")
  }

  lemma OperatorIsTaken(text: string, operator: Operator, rest: string)
    requires Spells(text, operator) && rest != "" && rest[0] != '=' && rest[0] != '<' && rest[0] != '>'
    ensures TakeOperator(text + rest) == (operator, rest)
  {
    var s := text + rest;
    assert s[|text|] == rest[0] && s[|text|..] == rest;
    if text == "" { assert s == rest; }
  }

  /** An operator with a text behind it loses the white space at its end only. */
  lemma StripAfterOperator(text: string, left: string, middle: string, right: string)
    requires text != "" && !IsSpace(text[0]) && Blank(left) && Blank(right) && middle != "" && Tight(middle)
    ensures Strip(text + (left + middle + right)) == text + (left + middle)
  {
    var all := text + (left + middle);
    assert all[0] == text[0] && all[|all| - 1] == middle[|middle| - 1];
    StripOf("", all, right);
    assert "" + all + right == text + (left + middle + right);
  }

  lemma StripOfTight(middle: string)
    requires Tight(middle)
    ensures Strip(middle) == middle
  {
    StripOf("", middle, "");
    assert "" + middle + "" == middle;
  }

  lemma ClauseIsRead(text: string, operator: Operator, t: string)
    requires Spells(text, operator) && VersionOf(t).Some?
    ensures ParseClause(text + t) == Some(Clause(operator, VersionOf(t).value)) && Strip(text + t) != ""
  {
    VersionChars(t);
    var left, right := Margins(t);
    var s := Strip(t);
    if text == "" {
      assert text + t == t && text + s == s;
      OperatorIsTaken(text, operator, s);
      StripOfTight(s);
    } else {
      StripAfterOperator(text, left, s, right);
      assert (left + s)[0] == if left == "" then s[0] else left[0];
      OperatorIsTaken(text, operator, left + s);
      StripOf(left, s, "");
      assert left + s + "" == left + s;
    }
  }

  lemma ClauseHasNoComma(text: string, operator: Operator, t: string)
    requires Spells(text, operator) && VersionOf(t).Some?
    ensures Split(text + t, ',') == [text + t]
  {
    VersionChars(t);
    var all := text + t;
    forall i | 0 <= i < |all| ensures all[i] != ',' {
      if i >= |text| { assert all[i] == t[i - |text|] && t[i - |text|] in t; }
    }
    SplitWhole(all, ',');
  }

  /** One clause: the operator selects the versions on its side of the target. */
  lemma OperatorSelects(v: Version, text: string, operator: Operator, t: string)
    requires Spells(text, operator) && VersionOf(t).Some?
    ensures Parseable(text + t)
    ensures Within(v, text + t) <==> Meets(v, Clause(operator, VersionOf(t).value))
  {
    var all := text + t;
    ClauseIsRead(text, operator, t);
    ClauseHasNoComma(text, operator, t);
    var left, right := Margins(all);
    StripOfTight(Strip(all));
    RangeByClauses(v, all);
    RangeByClauses(ZERO, all);
    assert ParseClause(Strip(all)) == ParseClause(all);
    assert forall c | c in [all] :: c == all;
    assert all in [all];
  }

  lemma RangeTextMeans(v: Version, t: string)
    requires VersionOf(t).Some?
    ensures Within(v, "<" + t) <==> Before(v, VersionOf(t).value)
    ensures Within(v, "<=" + t) <==> Before(v, VersionOf(t).value) || v == VersionOf(t).value
    ensures Within(v, ">" + t) <==> Before(VersionOf(t).value, v)
    ensures Within(v, ">=" + t) <==> Before(VersionOf(t).value, v) || v == VersionOf(t).value
    ensures Within(v, "==" + t) <==> v == VersionOf(t).value
    ensures Within(v, "=" + t) <==> v == VersionOf(t).value
    ensures Within(v, t) <==> v == VersionOf(t).value
  {
    var b := VersionOf(t).value;
    assert Within(v, "<" + t) <==> Before(v, b) by { OperatorSelects(v, "<", Less, t); }
    assert Within(v, "<=" + t) <==> NotAfter(v, b) by { OperatorSelects(v, "<=", LessOrEqual, t); }
    assert Within(v, ">" + t) <==> Before(b, v) by { OperatorSelects(v, ">", Greater, t); }
    assert Within(v, ">=" + t) <==> NotAfter(b, v) by { OperatorSelects(v, ">=", GreaterOrEqual, t); }
    assert Within(v, "==" + t) <==> v == b by { OperatorSelects(v, "==", Equal, t); }
    assert Within(v, "=" + t) <==> v == b by { OperatorSelects(v, "=", Equal, t); }
    assert Within(v, t) <==> v == b by {
      OperatorSelects(v, "", Equal, t);
      assert "" + t == t;
    }
  }

  // ---------------------------------------------------------------- commas

  lemma {:induction false} SplitJoins(s: string, t: string, separator: char)
    ensures Split(s + [separator] + t, separator) == Split(s, separator) + Split(t, separator)
  {
    var all := s + [separator] + t;
    if s == "" {
      assert all[1..] == t;
    } else {
      assert all[1..] == s[1..] + [separator] + t;
      SplitJoins(s[1..], t, separator);
    }
  }

  const MAX_CLAUSES := 4

  /** A comma intersects two ranges while the clauses fit; one clause too many, and nothing parses. */
  lemma CommaIntersects(v: Version, a: string, b: string)
    ensures var fits := |Split(a, ',')| + |Split(b, ',')| <= MAX_CLAUSES;
      && (Within(v, a + "," + b) <==> fits && Within(v, a) && Within(v, b))
      && (Parseable(a + "," + b) <==> fits && Parseable(a) && Parseable(b))
  {
    assert a + "," + b == a + [','] + b;
    SplitJoins(a, b, ',');
    ClausesTogether(v, a, b, a + "," + b);
    ClausesTogether(ZERO, a, b, a + "," + b);
  }

  predicate ClauseParses(c: string) {
    Strip(c) != "" && ParseClause(Strip(c)).Some?
  }

  predicate ClauseHolds(v: Version, c: string) {
    ClauseParses(c) && Meets(v, ParseClause(Strip(c)).value)
  }

  predicate AllParse(clauses: seq<string>) {
    forall i | 0 <= i < |clauses| :: ClauseParses(clauses[i])
  }

  predicate AllHold(v: Version, clauses: seq<string>) {
    forall i | 0 <= i < |clauses| :: ClauseHolds(v, clauses[i])
  }

  lemma OneClause(v: Version, c: string)
    ensures ClauseParses(c) <==> Strip(c) != "" && ClauseMatches(v, Strip(c)) != None
    ensures ClauseHolds(v, c) <==> Strip(c) != "" && ClauseMatches(v, Strip(c)) == Some(true)
  {
  }

  /** One to four clauses, every one of which has to parse and to hold. */
  lemma RangeByClauses(v: Version, expression: string)
    ensures var clauses := Split(expression, ',');
      && (RangeMatches(v, expression) != None <==> |clauses| <= 4 && AllParse(clauses))
      && (Within(v, expression) <==> |clauses| <= 4 && AllHold(v, clauses))
  {
    var clauses := Split(expression, ',');
    forall i | 0 <= i < |clauses|
      ensures ClauseParses(clauses[i]) <==> Strip(clauses[i]) != "" && ClauseMatches(v, Strip(clauses[i])) != None
      ensures ClauseHolds(v, clauses[i]) <==>
        Strip(clauses[i]) != "" && ClauseMatches(v, Strip(clauses[i])) == Some(true)
    {
      OneClause(v, clauses[i]);
    }
  }

  lemma ClausesJoin(v: Version, p: seq<string>, q: seq<string>)
    ensures AllParse(p + q) <==> AllParse(p) && AllParse(q)
    ensures AllHold(v, p + q) <==> AllHold(v, p) && AllHold(v, q)
  {
    var r := p + q;
    assert forall i | 0 <= i < |p| :: r[i] == p[i];
    assert forall i | 0 <= i < |q| :: r[|p| + i] == q[i];
    if AllHold(v, r) {
      forall i | 0 <= i < |q| ensures ClauseHolds(v, q[i]) { assert ClauseHolds(v, r[|p| + i]); }
    }
    if AllParse(r) {
      forall i | 0 <= i < |q| ensures ClauseParses(q[i]) { assert ClauseParses(r[|p| + i]); }
    }
  }

  /** A range is as its clauses are: which of them fail to parse, and which hold. */
  lemma ClausesTogether(v: Version, a: string, b: string, both: string)
    requires Split(both, ',') == Split(a, ',') + Split(b, ',')
    ensures var fits := |Split(both, ',')| <= MAX_CLAUSES;
      && (RangeMatches(v, both) == None <==> !fits || RangeMatches(v, a) == None || RangeMatches(v, b) == None)
      && (Within(v, both) <==> fits && Within(v, a) && Within(v, b))
  {
    RangeByClauses(v, a);
    RangeByClauses(v, b);
    RangeByClauses(v, both);
    ClausesJoin(v, Split(a, ','), Split(b, ','));
  }

  // ---------------------------------------------------------------- lists of texts

  /** The texts that are not blank, stripped, in order: one text at a time, and list by list. */
  lemma {:induction false} CleanJoins(a: seq<string>, b: seq<string>)
    ensures Clean(a + b) == Clean(a) + Clean(b)
  {
    if b == [] {
      assert a + b == a && Clean(a) + Clean(b) == Clean(a);
    } else {
      var rest, last := b[..|b| - 1], b[|b| - 1];
      CleanJoins(a, rest);
      assert b == rest + [last] && a + b == (a + rest) + [last];
      CleanOneMore(rest, last);
      CleanOneMore(a + rest, last);
    }
  }

  lemma CleanOneMore(rest: seq<string>, last: string)
    ensures Clean(rest + [last]) == Clean(rest) + if Strip(last) == "" then [] else [Strip(last)]
  {
    assert (rest + [last])[..|rest|] == rest;
  }

  lemma CleanOne(text: string)
    ensures Clean([text]) == if Strip(text) == "" then [] else [Strip(text)]
  {
    CleanOneMore([], text);
    assert [] + [text] == [text];
  }

  function First(s: seq<string>, n: nat): seq<string> {
    if |s| > n then s[..n] else s
  }

  /** Of the ranges of a finding the first sixteen are used. */
  lemma SixteenRanges(raw: seq<string>)
    ensures UsedRanges(raw) == Clean(First(raw, 16))
  {
    assert First(raw, 16) == if |raw| <= MAX_RANGES then raw else raw[..MAX_RANGES];
  }

  lemma {:induction false} CleanExactly(raw: seq<string>, x: string)
    ensures x in Clean(raw) <==> x != "" && exists i | 0 <= i < |raw| :: Strip(raw[i]) == x
  {
    if raw != [] {
      var n := |raw| - 1;
      CleanExactly(raw[..n], x);
      CleanOne(raw[n]);
      CleanJoins(raw[..n], [raw[n]]);
      assert raw == raw[..n] + [raw[n]];
    }
  }

  lemma {:induction false} DistinctExactly(s: seq<string>)
    ensures forall x :: x in Distinct(s) <==> x in s
    ensures forall i, j | 0 <= i < j < |Distinct(s)| :: Distinct(s)[i] != Distinct(s)[j]
  {
    if s != [] {
      var n := |s| - 1;
      DistinctExactly(s[..n]);
      assert s == s[..n] + [s[n]];
    }
  }

  lemma {:induction false} OnceEach(s: seq<string>)
    requires forall i, j | 0 <= i < j < |s| :: s[i] != s[j]
    ensures forall x :: multiset(s)[x] <= 1
  {
    if s != [] {
      var n := |s| - 1;
      OnceEach(s[..n]);
      assert s == s[..n] + [s[n]];
      assert s[n] !in s[..n];
    }
  }

  lemma OnlyOnce(s: seq<string>)
    requires forall x :: multiset(s)[x] <= 1
    ensures forall i, j | 0 <= i < j < |s| :: s[i] != s[j]
  {
    forall i, j | 0 <= i < j < |s| ensures s[i] != s[j] {
      assert s == s[..j] + [s[j]] + s[j + 1..];
      assert s[i] in s[..j];
      assert multiset(s)[s[i]] <= 1;
    }
  }

  /** The observed versions are the texts that are not blank, stripped, each once, in order. */
  lemma ObservedExactly(raw: seq<string>)
    ensures forall x :: x in Observed(raw) <==> x != "" && exists i | 0 <= i < |raw| :: Strip(raw[i]) == x
    ensures forall i, j | 0 <= i < j < |Observed(raw)| ::
      Observed(raw)[i] != Observed(raw)[j] && TextOrder.Leq(Observed(raw)[i], Observed(raw)[j])
  {
    var once := Distinct(Clean(raw));
    DistinctExactly(Clean(raw));
    forall x ensures x in Clean(raw) <==> x != "" && exists i | 0 <= i < |raw| :: Strip(raw[i]) == x {
      CleanExactly(raw, x);
    }
    assert TotalPreorder(TextOrder.Leq) by { TextIsOrdered(); }
    SortOrders(once, TextOrder.Leq);
    SortKeepsMembers(once, TextOrder.Leq);
    SortPermutes(once, TextOrder.Leq);
    OnceEach(once);
    OnlyOnce(Observed(raw));
  }

  lemma TextIsOrdered()
    ensures TotalPreorder(TextOrder.Leq)
  {
    forall a: string, b: string ensures TextOrder.Leq(a, b) || TextOrder.Leq(b, a) { TextOrder.Total(a, b); }
    forall a: string, b: string, c: string | TextOrder.Leq(a, b) && TextOrder.Leq(b, c) ensures TextOrder.Leq(a, c) {
      TextOrder.Transitive(a, b, c);
    }
  }
}
