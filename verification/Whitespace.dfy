/** Python's `str.strip`: the characters it removes are those for which `str.isspace` holds. */
module Whitespace {

  predicate IsSpace(c: char) {
    var n := c as int;
    || 9 <= n <= 13 || 28 <= n <= 32 || n == 0x85 || n == 0xA0 || n == 0x1680 || 0x2000 <= n <= 0x200A
    || n == 0x2028 || n == 0x2029 || n == 0x202F || n == 0x205F || n == 0x3000
  }

  function StripLeft(s: string): string {
    if s != "" && IsSpace(s[0]) then StripLeft(s[1..]) else s
  }

  function StripRight(s: string): string {
    if s != "" && IsSpace(s[|s| - 1]) then StripRight(s[..|s| - 1]) else s
  }

  function Strip(s: string): string {
    StripRight(StripLeft(s))
  }

  predicate Blank(s: string) {
    forall i | 0 <= i < |s| :: IsSpace(s[i])
  }

  predicate Tight(s: string) {
    s != "" ==> !IsSpace(s[0]) && !IsSpace(s[|s| - 1])
  }

  lemma {:induction false} StripLeftOf(left: string, rest: string)
    requires Blank(left) && (rest != "" ==> !IsSpace(rest[0]))
    ensures StripLeft(left + rest) == rest
  {
    if left == "" {
      assert left + rest == rest;
    } else {
      assert (left + rest)[1..] == left[1..] + rest;
      StripLeftOf(left[1..], rest);
    }
  }

  lemma {:induction false} StripRightOf(rest: string, right: string)
    requires Blank(right) && (rest != "" ==> !IsSpace(rest[|rest| - 1]))
    ensures StripRight(rest + right) == rest
  {
    if right == "" {
      assert rest + right == rest;
    } else {
      var n := |right| - 1;
      assert (rest + right)[..|rest| + n] == rest + right[..n];
      StripRightOf(rest, right[..n]);
    }
  }

  /** White space around a text is all that is removed: the middle is the one decomposition with tight ends. */
  lemma StripOf(left: string, middle: string, right: string)
    requires Blank(left) && Tight(middle) && Blank(right)
    ensures Strip(left + middle + right) == middle
  {
    if middle == "" {
      assert left + middle + right == left + right && Blank(left + right);
      assert left + right == (left + right) + "";
      StripLeftOf(left + right, "");
      assert StripLeft(left + middle + right) == "";
    } else {
      assert left + middle + right == left + (middle + right);
      StripLeftOf(left, middle + right);
      StripRightOf(middle, right);
    }
  }

  lemma {:induction false} LeftMargin(s: string) returns (left: string)
    ensures Blank(left) && s == left + StripLeft(s) && (StripLeft(s) != "" ==> !IsSpace(StripLeft(s)[0]))
  {
    left := "";
    if s != "" && IsSpace(s[0]) {
      var more := LeftMargin(s[1..]);
      left := [s[0]] + more;
      assert s == [s[0]] + s[1..];
    }
  }

  lemma {:induction false} RightMargin(s: string) returns (right: string)
    ensures Blank(right) && s == StripRight(s) + right
    ensures StripRight(s) != "" ==> !IsSpace(StripRight(s)[|StripRight(s)| - 1]) && StripRight(s)[0] == s[0]
  {
    right := "";
    if s != "" && IsSpace(s[|s| - 1]) {
      var more := RightMargin(s[..|s| - 1]);
      right := more + [s[|s| - 1]];
      assert s == s[..|s| - 1] + [s[|s| - 1]];
    }
  }

  /** Every text is what is left of it, with tight ends, between two margins. */
  lemma Margins(s: string) returns (left: string, right: string)
    ensures Blank(left) && Blank(right) && Tight(Strip(s)) && s == left + Strip(s) + right
  {
    left := LeftMargin(s);
    right := RightMargin(StripLeft(s));
  }

  /** Stripping leaves nothing exactly of a blank text. */
  lemma BlankStrips(s: string)
    ensures Strip(s) == "" <==> Blank(s)
  {
    var left, right := Margins(s);
    if Strip(s) == "" {
      assert s == left + right;
    } else {
      assert s[|left|] == Strip(s)[0];
    }
  }

  /** The characters that are stripped, one by one. */
  lemma SpacesListed(c: char)
    ensures IsSpace(c) <==>
      (c in "\t\n\U{0B}\U{0C}\r\U{1C}\U{1D}\U{1E}\U{1F} \U{85}\U{A0}\U{1680}"
       || c in "\U{2000}\U{2001}\U{2002}\U{2003}\U{2004}\U{2005}\U{2006}\U{2007}\U{2008}\U{2009}\U{200A}"
       || c in "\U{2028}\U{2029}\U{202F}\U{205F}\U{3000}")
  {
  }
}
