/** Python string operations the modelled code relies on, over sequences of code points. */
module Text {
  import opened Basics

  /** `str.isspace` for one code point. */
  predicate IsSpace(c: char) {
    || '\t' <= c <= '\r'
    || '\U{1c}' <= c <= '\U{20}'
    || c == '\U{85}' || c == '\U{a0}' || c == '\U{1680}'
    || '\U{2000}' <= c <= '\U{200a}'
    || c == '\U{2028}' || c == '\U{2029}' || c == '\U{202f}' || c == '\U{205f}' || c == '\U{3000}'
  }

  function StripLeft(s: string): (r: string)
    ensures |r| <= |s| && r == s[|s| - |r|..]
    ensures r != "" ==> !IsSpace(r[0])
    ensures s != "" && !IsSpace(s[0]) ==> r == s
  {
    if s != "" && IsSpace(s[0]) then StripLeft(s[1..]) else s
  }

  function StripRight(s: string): (r: string)
    ensures |r| <= |s| && r == s[..|r|]
    ensures r != "" ==> !IsSpace(r[|r| - 1])
    ensures s != "" && !IsSpace(s[|s| - 1]) ==> r == s
  {
    if s != "" && IsSpace(s[|s| - 1]) then StripRight(s[..|s| - 1]) else s
  }

  /** `str.strip()`. */
  function Strip(s: string): string {
    if s == "" then s
    else if IsSpace(s[0]) then Strip(s[1..])
    else if IsSpace(s[|s| - 1]) then Strip(s[..|s| - 1])
    else s
  }

  /** Stripping on both sides, one after the other. */
  lemma {:induction false} StripIs(s: string)
    ensures Strip(s) == StripRight(StripLeft(s))
  {
    if s != "" && IsSpace(s[0]) {
      StripIs(s[1..]);
    } else if s != "" && IsSpace(s[|s| - 1]) {
      StripIs(s[..|s| - 1]);
      assert StripLeft(s[..|s| - 1]) == s[..|s| - 1];
    }
  }

  /** A string with no outer white space: the fixed points of Strip. */
  predicate Trimmed(s: string) {
    s == "" || (!IsSpace(s[0]) && !IsSpace(s[|s| - 1]))
  }

  lemma {:induction false} TrimmedIsFixed(s: string)
    ensures Trimmed(Strip(s))
    ensures Trimmed(s) ==> Strip(s) == s
  {
    if s != "" && IsSpace(s[0]) {
      TrimmedIsFixed(s[1..]);
    } else if s != "" && IsSpace(s[|s| - 1]) {
      TrimmedIsFixed(s[..|s| - 1]);
    }
  }

  /** What is stripped away entirely is white space throughout. */
  lemma {:induction false} StripIsEmptyIff(s: string)
    ensures Strip(s) == "" <==> forall i :: 0 <= i < |s| ==> IsSpace(s[i])
  {
    if s != "" && IsSpace(s[0]) {
      StripIsEmptyIff(s[1..]);
      assert forall i :: 0 < i < |s| ==> s[i] == s[1..][i - 1];
    } else if s != "" && IsSpace(s[|s| - 1]) {
      assert !IsSpace(s[..|s| - 1][0]);
      StripIsEmptyIff(s[..|s| - 1]);
    }
  }

  predicate Spaces(s: string) {
    forall i :: 0 <= i < |s| ==> IsSpace(s[i])
  }

  lemma {:induction false} StripLeftOfSpaces(lead: string, s: string)
    requires Spaces(lead)
    ensures StripLeft(lead + s) == StripLeft(s)
  {
    if lead == "" {
      assert lead + s == s;
    } else {
      assert (lead + s)[1..] == lead[1..] + s;
      StripLeftOfSpaces(lead[1..], s);
    }
  }

  lemma {:induction false} StripRightOfSpaces(s: string, trail: string)
    requires Spaces(trail)
    ensures StripRight(s + trail) == StripRight(s)
  {
    if trail == "" {
      assert s + trail == s;
    } else {
      assert (s + trail)[..|s + trail| - 1] == s + trail[..|trail| - 1];
      StripRightOfSpaces(s, trail[..|trail| - 1]);
    }
  }

  /** Stripping a padded trimmed text gives it back. */
  lemma StripPadded(lead: string, s: string, trail: string)
    requires Spaces(lead) && Spaces(trail) && s != "" && Trimmed(s)
    ensures Strip(lead + s + trail) == s
  {
    StripIs(lead + s + trail);
    assert lead + s + trail == lead + (s + trail);
    StripLeftOfSpaces(lead, s + trail);
    assert (s + trail)[0] == s[0];
    StripRightOfSpaces(s, trail);
  }

  lemma {:induction false} StripLeftDrops(s: string)
    ensures Spaces(s[..|s| - |StripLeft(s)|])
  {
    if s != "" && IsSpace(s[0]) {
      StripLeftDrops(s[1..]);
      var d := |s| - |StripLeft(s)|;
      assert forall i :: 0 < i < d ==> s[..d][i] == s[1..][..d - 1][i - 1];
    }
  }

  lemma {:induction false} StripRightDrops(s: string)
    ensures Spaces(s[|StripRight(s)|..])
  {
    if s != "" && IsSpace(s[|s| - 1]) {
      StripRightDrops(s[..|s| - 1]);
      var n := |StripRight(s)|;
      assert forall i :: 0 <= i < |s| - 1 - n ==> s[n..][i] == s[..|s| - 1][n..][i];
    }
  }

  lemma StripCuts(s: string) returns (lead: string, trail: string)
    ensures s == lead + Strip(s) + trail && Spaces(lead) && Spaces(trail)
  {
    var l := StripLeft(s);
    StripLeftDrops(s);
    StripRightDrops(l);
    lead, trail := s[..|s| - |l|], l[|StripRight(l)|..];
    StripIs(s);
    CutTwice(s, l, StripRight(l), lead, trail);
  }

  lemma CutTwice(s: string, l: string, r: string, lead: string, trail: string)
    requires |r| <= |l| <= |s| && l == s[|s| - |l|..] && r == l[..|r|]
    requires lead == s[..|s| - |l|] && trail == l[|r|..]
    ensures s == lead + r + trail
  {
    assert s == lead + l && l == r + trail;
  }

  /** A trimmed text at the front stays there, and one anywhere inside stays inside. */
  lemma StripKeeps(s: string, t: string)
    requires t != "" && Trimmed(t)
    ensures t <= s ==> t <= Strip(s)
    ensures Contains(s, t) ==> Contains(Strip(s), t)
  {
    var lead, trail := StripCuts(s);
    var mid := Strip(s);
    if Contains(s, t) {
      var i :| 0 <= i <= |s| && OccursAt(s, t, i);
      assert s[i..i + |t|] == t;
      InsideOfPadding(lead, mid, trail, t, i);
    }
    if t <= s {
      assert s[0..0 + |t|] == t;
      InsideOfPadding(lead, mid, trail, t, 0);
      assert mid[0..|t|] == t;
    }
  }

  lemma InsideOfPadding(lead: string, mid: string, trail: string, t: string, i: nat)
    requires Spaces(lead) && Spaces(trail) && t != "" && Trimmed(t) && OccursAt(lead + mid + trail, t, i)
    ensures |lead| <= i && i + |t| <= |lead| + |mid| && OccursAt(mid, t, i - |lead|) && Contains(mid, t)
  {
    var s, last := lead + mid + trail, i + |t| - 1;
    assert s[i..i + |t|] == t;
    assert s[i] == t[0] && s[last] == t[|t| - 1];
    assert forall k :: 0 <= k < |lead| ==> s[k] == lead[k];
    assert forall k :: |lead| + |mid| <= k < |s| ==> s[k] == trail[k - |lead| - |mid|];
    assert |lead| <= i && last < |lead| + |mid|;
    var j := i - |lead|;
    forall k | 0 <= k < |t| ensures mid[j + k] == t[k] {
      assert s[i..i + |t|][k] == s[i + k];
    }
    assert mid[j..j + |t|] == t;
    assert OccursAt(mid, t, j);
  }

  predicate OccursAt(s: string, m: string, i: nat) {
    i + |m| <= |s| && s[i..i + |m|] == m
  }

  /** `m in s`. */
  predicate Contains(s: string, m: string) {
    exists i :: 0 <= i <= |s| && OccursAt(s, m, i)
  }

  lemma ContainsAround(a: string, m: string, b: string)
    ensures Contains(a + m + b, m)
  {
    assert OccursAt(a + m + b, m, |a|);
  }

  lemma ContainsPrefixed(a: string, s: string, m: string)
    requires Contains(s, m)
    ensures Contains(a + s, m)
  {
    var i :| 0 <= i <= |s| && OccursAt(s, m, i);
    assert (a + s)[|a| + i..|a| + i + |m|] == s[i..i + |m|];
    assert OccursAt(a + s, m, |a| + i);
  }

  lemma ContainsSuffixed(s: string, b: string, m: string)
    requires Contains(s, m)
    ensures Contains(s + b, m)
  {
    var i :| 0 <= i <= |s| && OccursAt(s, m, i);
    assert (s + b)[i..i + |m|] == s[i..i + |m|];
    assert OccursAt(s + b, m, i);
  }

  /** `str.lower()` on ASCII letters. Comparing the result with the ASCII words used by the
      modelled code gives the same answer as full Unicode lowering. */
  function Lower(s: string): string {
    Map((c: char) => if 'A' <= c <= 'Z' then (c as int + 32) as char else c, s)
  }

  /** The same letters, whatever their case in `s`. */
  predicate SameLetters(s: string, word: string) {
    && |s| == |word|
    && forall i :: 0 <= i < |s| ==>
         s[i] == word[i] || ('a' <= word[i] <= 'z' && s[i] as int == word[i] as int - 32)
  }

  lemma LowerIs(s: string, word: string)
    requires forall i :: 0 <= i < |word| ==> !('A' <= word[i] <= 'Z')
    ensures Lower(s) == word <==> SameLetters(s, word)
  {
    var low := Lower(s);
    if low == word {
      forall i | 0 <= i < |s| ensures s[i] == word[i] || ('a' <= word[i] <= 'z' && s[i] as int == word[i] as int - 32) {
        assert low[i] == word[i];
      }
    }
    if SameLetters(s, word) {
      assert forall i :: 0 <= i < |s| ==> low[i] == word[i];
    }
  }

  /** `sep.join(parts)`. */
  function Join(sep: string, parts: seq<string>): string {
    if parts == [] then "" else if |parts| == 1 then parts[0]
    else parts[0] + sep + Join(sep, parts[1..])
  }

  predicate IsDigit(c: char) {
    '0' <= c <= '9'
  }

  /** Decimal text of a natural number. */
  function Decimal(n: nat): (s: string)
    ensures s != "" && forall i :: 0 <= i < |s| ==> IsDigit(s[i])
  {
    if n < 10 then [('0' as int + n) as char]
    else Decimal(n / 10) + [('0' as int + n % 10) as char]
  }

  function DigitsValue(s: string): (n: nat)
    requires forall i :: 0 <= i < |s| ==> IsDigit(s[i])
  {
    if s == "" then 0 else
      assert IsDigit(s[|s| - 1]);
      10 * DigitsValue(s[..|s| - 1]) + (s[|s| - 1] as int - '0' as int)
  }

  lemma {:induction false} DecimalValue(n: nat)
    ensures DigitsValue(Decimal(n)) == n
  {
    if n >= 10 {
      DecimalValue(n / 10);
      var s := Decimal(n);
      assert s[..|s| - 1] == Decimal(n / 10);
    } else {
      var s := Decimal(n);
      assert s[..0] == "";
    }
  }

  predicate StartsWith(s: string, p: string) {
    p <= s
  }

  /** What precedes the first `c`, or everything: `s.split(c, maxsplit=1)[0]`. */
  function Before(s: string, c: char): string {
    if s == "" || s[0] == c then "" else [s[0]] + Before(s[1..], c)
  }

  lemma {:induction false} BeforeEnds(s: string, c: char)
    ensures Before(s, c) <= s && c !in Before(s, c)
    ensures |Before(s, c)| < |s| ==> s[|Before(s, c)|] == c
  {
    if s != "" && s[0] != c {
      BeforeEnds(s[1..], c);
    }
  }

  lemma {:induction false} BeforeIs(a: string, c: char, b: string)
    requires c !in a && (b == "" || b[0] == c)
    ensures Before(a + b, c) == a
  {
    if a == "" {
      assert a + b == b;
    } else {
      assert (a + b)[1..] == a[1..] + b;
      BeforeIs(a[1..], c, b);
    }
  }

  /** What follows the first occurrence of `sep`: `s.split(sep, maxsplit=1)[1]`, if there is one. */
  function After(s: string, sep: string): Option<string>
    requires sep != ""
  {
    if |s| < |sep| then None
    else if sep <= s then Some(s[|sep|..])
    else After(s[1..], sep)
  }

  lemma {:induction false} AfterIs(a: string, sep: string, b: string)
    requires sep != "" && forall i: nat :: i < |a| ==> !OccursAt(a + sep + b, sep, i)
    ensures After(a + sep + b, sep) == Some(b)
  {
    var s := a + sep + b;
    if a == "" {
      assert s == sep + b;
    } else {
      assert !OccursAt(s, sep, 0);
      assert s[1..] == a[1..] + sep + b;
      forall i: nat | i < |a[1..]| ensures !OccursAt(a[1..] + sep + b, sep, i) {
        assert !OccursAt(s, sep, i + 1);
        assert s[i + 1..i + 1 + |sep|] == s[1..][i..i + |sep|];
      }
      AfterIs(a[1..], sep, b);
    }
  }

  /** Digits, possibly grouped by single underscores between digits. */
  predicate DigitGroups(s: string) {
    && s != "" && IsDigit(s[0]) && IsDigit(s[|s| - 1])
    && forall i :: 0 <= i < |s| ==> IsDigit(s[i]) || (s[i] == '_' && i + 1 < |s| && IsDigit(s[i + 1]))
  }

  /** `int(s)` for ASCII text: outer white space, a sign and digit groups. */
  function ParseInt(s: string): Option<int> {
    ParseSigned(Strip(s))
  }

  function ParseSigned(t: string): Option<int> {
    if t == "" then None
    else if t[0] == '-' then
      (match ParseGroups(t[1..]) case Some(v) => Some(-v) case None => None)
    else ParseGroups(if t[0] == '+' then t[1..] else t)
  }

  function ParseGroups(digits: string): Option<int> {
    if DigitGroups(digits) then Some(DigitsValue(Filter(IsDigit, digits))) else None
  }

  lemma {:induction false} FilterAll<T>(p: T -> bool, xs: seq<T>)
    requires forall x <- xs :: p(x)
    ensures Filter(p, xs) == xs
  {
    if xs != [] {
      FilterAll(p, xs[1..]);
    }
  }

  lemma ParseDigits(s: string)
    requires s != "" && forall c <- s :: IsDigit(c)
    ensures ParseGroups(s) == Some(DigitsValue(s))
  {
    assert s[0] in s && s[|s| - 1] in s;
    FilterAll(IsDigit, s);
  }

  lemma StripDigits(s: string)
    requires s != "" && forall c <- s :: IsDigit(c)
    ensures Strip(s) == s
  {
    assert s[0] in s && s[|s| - 1] in s;
  }

  lemma ParseUnsigned(s: string)
    requires s != "" && forall c <- s :: IsDigit(c)
    ensures ParseSigned(s) == Some(DigitsValue(s))
  {
    assert s[0] in s;
    ParseDigits(s);
  }

  lemma ParseDecimal(n: nat)
    ensures ParseInt(Decimal(n)) == Some(n)
  {
    StripDigits(Decimal(n));
    ParseUnsigned(Decimal(n));
    DecimalValue(n);
  }

  /** The characters at which `str.splitlines` ends a line. */
  predicate IsBreak(c: char) {
    '\n' <= c <= '\r' || '\U{1c}' <= c <= '\U{1e}' || c == '\U{85}' || c == '\U{2028}' || c == '\U{2029}'
  }

  /** Length of the first line, and of the first line with its line end. */
  function FirstLine(s: string): (r: (nat, nat))
    ensures r.0 <= r.1 <= |s| && (s != "" ==> r.1 > 0)
  {
    if s == "" then (0, 0)
    else if s[0] == '\r' && |s| > 1 && s[1] == '\n' then (0, 2)
    else if IsBreak(s[0]) then (0, 1)
    else (FirstLine(s[1..]).0 + 1, FirstLine(s[1..]).1 + 1)
  }

  /** `str.splitlines()`. */
  function SplitLines(s: string): seq<string> {
    if s == "" then [] else
      var (n, next) := FirstLine(s);
      [s[..n]] + SplitLines(s[next..])
  }

  /** A line without its final carriage return. */
  function Chomp(line: string): string {
    if line != "" && line[|line| - 1] == '\r' then line[..|line| - 1] else line
  }

  /** No line break inside, except possibly a carriage return at the very end. */
  predicate CleanLine(line: string) {
    forall i :: 0 <= i < |line| && IsBreak(line[i]) ==> i == |line| - 1 && line[i] == '\r'
  }

  lemma {:induction false} FirstLineIs(line: string, rest: string)
    requires CleanLine(line)
    ensures FirstLine(line + "\n" + rest) == (|Chomp(line)|, |line| + 1)
    ensures line != "" ==> FirstLine(line) == (|Chomp(line)|, |line|)
  {
    var s := line + "\n" + rest;
    if line == "" {
    } else if line == "\r" {
      assert s[1] == '\n';
    } else {
      assert !IsBreak(line[0]);
      assert s[1..] == line[1..] + "\n" + rest;
      assert forall i :: 0 <= i < |line[1..]| ==> line[1..][i] == line[i + 1];
      FirstLineIs(line[1..], rest);
    }
  }

  /** Lines each ended by a newline. */
  function Unlines(lines: seq<string>): string {
    if lines == [] then "" else lines[0] + "\n" + Unlines(lines[1..])
  }
}
