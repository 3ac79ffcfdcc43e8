/** The Markdown code-span printer (pr_comment.py) against the code-span parser of section 6.1 of
    CommonMark 0.31.2. */
module CodeSpan {
  import opened Basics

  /** `n` backticks from position `i` on. */
  predicate TickRun(s: string, i: nat, n: nat) {
    i + n <= |s| && forall k :: i <= k < i + n ==> s[k] == '`'
  }

  /** A backtick string of length `n`: neither preceded nor followed by a backtick. */
  predicate BacktickString(s: string, i: nat, n: nat) {
    && n > 0 && TickRun(s, i, n)
    && (i == 0 || s[i - 1] != '`')
    && (i + n == |s| || s[i + n] != '`')
  }

  /** Length of the backtick run the text ends with. */
  function TrailingRun(s: string): (n: nat)
    ensures n <= |s| && TickRun(s, |s| - n, n) && (n < |s| ==> s[|s| - n - 1] != '`')
  {
    if s == "" || s[|s| - 1] != '`' then 0 else TrailingRun(s[..|s| - 1]) + 1
  }

  function LongestRun(s: string): nat {
    if s == "" then 0 else
      var rest := LongestRun(s[..|s| - 1]);
      if TrailingRun(s) > rest then TrailingRun(s) else rest
  }

  /** `_longest_backtick_run`: one pass with a running and a best count. */
  method LongestBacktickRun(text: string) returns (longest: nat)
    ensures longest == LongestRun(text)
  {
    longest := 0;
    var current := 0;
    for k := 0 to |text|
      invariant longest == LongestRun(text[..k]) && current == TrailingRun(text[..k])
    {
      assert text[..k + 1][..k] == text[..k];
      if text[k] == '`' {
        current := current + 1;
        longest := if current > longest then current else longest;
      } else {
        current := 0;
      }
    }
    assert text[..|text|] == text;
  }

  /** The pass computes the true maximum: some run has that length and none is longer. */
  lemma {:induction false} LongestRunIsMaximum(s: string)
    ensures exists i :: 0 <= i <= |s| && TickRun(s, i, LongestRun(s))
    ensures forall i: nat, n: nat :: TickRun(s, i, n) ==> n <= LongestRun(s)
  {
    if s == "" {
      assert TickRun(s, 0, LongestRun(s));
    } else {
      var rest := s[..|s| - 1];
      LongestRunIsMaximum(rest);
      var i :| 0 <= i <= |rest| && TickRun(rest, i, LongestRun(rest));
      assert TickRun(s, i, LongestRun(rest)) && TickRun(s, |s| - TrailingRun(s), TrailingRun(s));
      forall i: nat, n: nat | TickRun(s, i, n) ensures n <= LongestRun(s) {
        if i + n < |s| {
          assert TickRun(rest, i, n);
        } else {
          assert n <= TrailingRun(s);
        }
      }
    }
  }

  function Ticks(n: nat): string {
    seq(n, _ => '`')
  }

  predicate EdgeTick(text: string) {
    text != "" && (text[0] == '`' || text[|text| - 1] == '`')
  }

  /** What goes between the delimiters: padded with spaces when a backtick would touch them. */
  function Body(text: string): string {
    if EdgeTick(text) then " " + text + " " else text
  }

  /** `_inline_code_span`. */
  function InlineCodeSpan(text: string): string {
    var delimiter := Ticks(LongestRun(text) + 1);
    delimiter + Body(text) + delimiter
  }

  // The parser

  function RunLengthAt(s: string, i: nat): (n: nat)
    requires i <= |s|
    ensures TickRun(s, i, n) && (i + n == |s| || s[i + n] != '`')
    decreases |s| - i
  {
    if i < |s| && s[i] == '`' then RunLengthAt(s, i + 1) + 1 else 0
  }

  /** The first backtick string of length `n` that starts at `j` or later. */
  function FindCloser(s: string, j: nat, n: nat): (r: Option<nat>)
    ensures r.Some? ==> j <= r.value && BacktickString(s, r.value, n)
    ensures r.Some? ==> forall k :: j <= k < r.value ==> !BacktickString(s, k, n)
    ensures r.None? ==> forall k :: j <= k ==> !BacktickString(s, k, n)
    decreases |s| - j
  {
    if BacktickString(s, j, n) then Some(j)
    else if j >= |s| then None
    else FindCloser(s, j + 1, n)
  }

  predicate IsLineEnd(c: char) {
    c == '\n' || c == '\r'
  }

  predicate OneLine(s: string) {
    forall c <- s :: !IsLineEnd(c)
  }

  /** Line endings become spaces; a carriage return and newline together are one line ending. */
  function LineEndsToSpaces(s: string): (r: string)
    ensures OneLine(r)
    ensures OneLine(s) ==> r == s
  {
    if s == "" then "" else
      assert s[0] in s;
      if s[0] == '\r' && |s| > 1 && s[1] == '\n' then " " + LineEndsToSpaces(s[2..])
      else [if IsLineEnd(s[0]) then ' ' else s[0]] + LineEndsToSpaces(s[1..])
  }

  predicate AllSpaces(s: string) {
    forall c <- s :: c == ' '
  }

  /** One space is removed from both ends of a content that begins and ends with one, unless it is all spaces. */
  predicate Strippable(s: string) {
    s != "" && s[0] == ' ' && s[|s| - 1] == ' ' && !AllSpaces(s)
  }

  function Content(raw: string): string {
    var s := LineEndsToSpaces(raw);
    if Strippable(s) then s[1..|s| - 1] else s
  }

  /** The code span that starts at the beginning of `s`: its content and how much of `s` it takes. */
  function ParseCodeSpan(s: string): Option<(string, nat)> {
    var n := RunLengthAt(s, 0);
    if n == 0 then None else
      match FindCloser(s, n, n)
      case None => None
      case Some(j) => Some((Content(s[n..j]), j + n))
  }

  // Round trip

  lemma BodyKeepsInside(text: string)
    requires text != ""
    ensures var b := Body(text);
            && b != "" && b[0] != '`' && b[|b| - 1] != '`'
            && (forall i: nat, n: nat :: TickRun(b, i, n) ==> n <= LongestRun(text))
  {
    hide LongestRun;
    var b := Body(text);
    LongestRunIsMaximum(text);
    forall i: nat, n: nat | TickRun(b, i, n) ensures n <= LongestRun(text) {
      if EdgeTick(text) && n > 0 {
        assert b[i] == '`' && b[i + n - 1] == '`';
        forall k | i - 1 <= k < i - 1 + n ensures text[k] == '`' {
          assert b[k + 1] == '`';
        }
        assert TickRun(text, i - 1, n);
      }
    }
  }

  /** Delimiters around a body whose ends are no backticks and whose runs are shorter. */
  ghost predicate Delimited(s: string, b: string, n: nat) {
    && n > 0 && b != "" && s == Ticks(n) + b + Ticks(n)
    && b[0] != '`' && b[|b| - 1] != '`'
    && forall i: nat, k: nat :: TickRun(b, i, k) ==> k < n
  }

  lemma OpenerIsWhole(s: string, b: string, n: nat)
    requires Delimited(s, b, n)
    ensures RunLengthAt(s, 0) == n
  {
    assert s[n] == b[0];
    assert TickRun(s, 0, n);
  }

  lemma CloserIsTheLast(s: string, b: string, n: nat)
    requires Delimited(s, b, n)
    ensures FindCloser(s, n, n) == Some(n + |b|)
  {
    assert forall k :: 0 <= k < |b| ==> s[n + k] == b[k];
    assert s[n + |b| - 1] == b[|b| - 1];
    assert BacktickString(s, n + |b|, n);
    forall j: nat | n <= j < n + |b| ensures !TickRun(s, j, n) {
      if TickRun(s, j, n) {
        if j <= |b| {
          forall k | j - n <= k < j ensures b[k] == '`' {
            assert s[n + k] == '`';
          }
          assert TickRun(b, j - n, n);
        }
      }
    }
  }

  /** The parser stops at the last delimiter. */
  lemma DelimitedIsParsed(s: string, b: string, n: nat)
    requires Delimited(s, b, n)
    ensures ParseCodeSpan(s) == Some((Content(b), |s|))
  {
    hide Content;
    OpenerIsWhole(s, b, n);
    CloserIsTheLast(s, b, n);
    assert s[n..n + |b|] == b;
  }

  /** It stops at the printed closing delimiter, so it sees exactly the printed body. */
  lemma DelimitersMatch(text: string)
    requires text != ""
    ensures ParseCodeSpan(InlineCodeSpan(text)) == Some((Content(Body(text)), |InlineCodeSpan(text)|))
  {
    BodyKeepsInside(text);
    DelimitedIsParsed(InlineCodeSpan(text), Body(text), LongestRun(text) + 1);
  }

  predicate RoundTrips(text: string) {
    ParseCodeSpan(InlineCodeSpan(text)) == Some((text, |InlineCodeSpan(text)|))
  }

  /** A reader of the printed span gets the text back, and nothing is left over, exactly when the text is
      nonempty, is a single line, and does not both begin and end with a space (all spaces are fine). */
  lemma RoundTripIff(text: string)
    ensures RoundTrips(text) <==> text != "" && OneLine(text) && !Strippable(text)
  {
    if text == "" {
      assert InlineCodeSpan(text) == "``";
      assert RunLengthAt("``", 0) == 2;
    } else {
      DelimitersMatch(text);
      var b := Body(text);
      if OneLine(text) {
        assert OneLine(b);
        if EdgeTick(text) {
          assert b[1] == text[0] && b[|b| - 2] == text[|text| - 1];
          assert '`' in b;
          assert b[1..|b| - 1] == text;
        }
      }
    }
  }
}
