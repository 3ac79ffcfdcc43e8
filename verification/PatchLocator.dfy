/** The unified-diff line locator (tool_context.py, and its copy in src/core/analyzer/rules.py) against the
    meaning of a patch: POSIX diff, "Diff -u or -U Output Format". */
module PatchLocator {
  import opened Basics
  import opened Text

  /** `_new_line_start_from_hunk`. */
  function HunkStart(header: string): Option<int> {
    match After(header, " +")
    case None => None
    case Some(rest) =>
      var start := Before(Before(rest, ' '), ',');
      ParseInt(if StartsWith(start, "+") then start[1..] else start)
  }

  /** What the locator's loop computes from a position on, given how it reads hunk headers. */
  function Scan(start: string -> Option<int>, lines: seq<string>, newLine: Option<int>): Option<int> {
    if lines == [] then None else
      var line, rest := lines[0], lines[1..];
      if StartsWith(line, "@@") then Scan(start, rest, start(line))
      else if newLine.None? then Scan(start, rest, None)
      else if StartsWith(line, "+") && !StartsWith(line, "+++") then newLine
      else if StartsWith(line, "-") && !StartsWith(line, "---") then Scan(start, rest, newLine)
      else Scan(start, rest, Some(newLine.value + 1))
  }

  function FirstAddedLine(patch: string): Option<int> {
    Scan(HunkStart, SplitLines(patch), None)
  }

  /** `_first_added_line_from_patch` of the context provider. */
  method FirstAddedLineFromPatch(patch: Option<string>) returns (r: Option<int>)
    ensures r == if patch.None? then None else FirstAddedLine(patch.value)
  {
    if patch.None? || patch.value == "" {
      return None;
    }
    var newLine := None;
    var lines := SplitLines(patch.value);
    for k := 0 to |lines|
      invariant Scan(HunkStart, lines, None) == Scan(HunkStart, lines[k..], newLine)
    {
      var line := lines[k];
      assert lines[k..][1..] == lines[k + 1..];
      if StartsWith(line, "@@") {
        newLine := HunkStart(line);
        continue;
      }
      if newLine.None? {
        continue;
      }
      if StartsWith(line, "+") && !StartsWith(line, "+++") {
        return newLine;
      }
      if StartsWith(line, "-") && !StartsWith(line, "---") {
        continue;
      }
      newLine := Some(newLine.value + 1);
    }
    return None;
  }

  /** The analyzer's copy: no guard for a missing patch, otherwise the same answer on every input. */
  method AnalyzerFirstAddedLine(patch: string) returns (r: Option<int>)
    ensures r == FirstAddedLine(patch)
  {
    var newLine := None;
    var lines := SplitLines(patch);
    var k := 0;
    while k < |lines|
      invariant 0 <= k <= |lines|
      invariant Scan(HunkStart, lines, None) == Scan(HunkStart, lines[k..], newLine)
    {
      var line := lines[k];
      assert lines[k..][1..] == lines[k + 1..];
      k := k + 1;
      if StartsWith(line, "@@") {
        newLine := HunkStart(line);
      } else if newLine.Some? {
        if StartsWith(line, "+") && !StartsWith(line, "+++") {
          return newLine;
        }
        if !(StartsWith(line, "-") && !StartsWith(line, "---")) {
          newLine := Some(newLine.value + 1);
        }
      }
    }
    return None;
  }

  // What a patch means

  /** One line of a hunk; NoNewline is the "\ No newline at end of file" marker. */
  datatype Line = Context(text: string) | Added(text: string) | Removed(text: string) | NoNewline

  /** `gap` holds the unchanged lines skipped before the hunk; `heading` is the text after the second `@@`. */
  datatype Hunk = Hunk(gap: seq<string>, lines: seq<Line>, heading: string)

  /** Lines of the patched file, each with whether the patch adds it. */
  function NewLines(lines: seq<Line>): seq<(string, bool)> {
    if lines == [] then [] else
      (match lines[0]
       case Context(t) => [(t, false)]
       case Added(t) => [(t, true)]
       case _ => []) + NewLines(lines[1..])
  }

  function OldCount(lines: seq<Line>): nat {
    if lines == [] then 0 else (if lines[0].Context? || lines[0].Removed? then 1 else 0) + OldCount(lines[1..])
  }

  function Unchanged(gap: seq<string>): seq<(string, bool)> {
    Map((t: string) => (t, false), gap)
  }

  /** The patched file, up to the end of the last hunk. */
  function NewFile(hunks: seq<Hunk>): seq<(string, bool)> {
    if hunks == [] then [] else Unchanged(hunks[0].gap) + NewLines(hunks[0].lines) + NewFile(hunks[1..])
  }

  /** 1-based number of the first added line of the patched file. */
  function TrueFirstAdded(file: seq<(string, bool)>): Option<nat> {
    if file == [] then None
    else if file[0].1 then Some(1)
    else match TrueFirstAdded(file[1..]) case Some(n) => Some(n + 1) case None => None
  }

  // How a patch is printed

  function PrintLine(line: Line): string {
    match line
    case Context(t) => " " + t
    case Added(t) => "+" + t
    case Removed(t) => "-" + t
    case NoNewline => "\\ No newline at end of file"
  }

  /** The line a range starts at; an empty range names the line before it. */
  function RangeStart(before: nat, count: nat): nat {
    if count == 0 then before else before + 1
  }

  function PrintRange(before: nat, count: nat): string {
    Decimal(RangeStart(before, count)) + if count == 1 then "" else "," + Decimal(count)
  }

  /** A hunk header, given how many old and new lines come before the hunk. */
  function PrintHeader(h: Hunk, oldBefore: nat, newBefore: nat): string {
    "@@ -" + PrintRange(oldBefore, OldCount(h.lines)) + " +" + PrintRange(newBefore, |NewLines(h.lines)|)
    + " @@" + h.heading
  }

  function PrintHeaders(header: (Hunk, nat, nat) -> string, hunks: seq<Hunk>, oldBefore: nat, newBefore: nat)
    : (r: seq<string>)
    ensures |r| == |hunks|
  {
    if hunks == [] then [] else
      var h := hunks[0];
      var old', new' := oldBefore + |h.gap|, newBefore + |h.gap|;
      [header(h, old', new')]
      + PrintHeaders(header, hunks[1..], old' + OldCount(h.lines), new' + |NewLines(h.lines)|)
  }

  /** Each header followed by its hunk's lines. */
  function Interleave(headers: seq<string>, hunks: seq<Hunk>): seq<string>
    requires |headers| == |hunks|
  {
    if hunks == [] then [] else [headers[0]] + Map(PrintLine, hunks[0].lines) + Interleave(headers[1..], hunks[1..])
  }

  /** The lines of a printed patch. */
  function PrintHunks(hunks: seq<Hunk>): seq<string> {
    Interleave(PrintHeaders(PrintHeader, hunks, 0, 0), hunks)
  }

  // The first added line

  predicate HasAdded(lines: seq<Line>) {
    exists l <- lines :: l.Added?
  }

  function Shift(line: Option<nat>, offset: nat): Option<int> {
    match line case Some(n) => Some(n + offset) case None => None
  }

  lemma {:induction false} TrueFirstAddedAppend(a: seq<(string, bool)>, b: seq<(string, bool)>)
    ensures TrueFirstAdded(a + b)
         == if TrueFirstAdded(a).Some? then TrueFirstAdded(a)
            else match TrueFirstAdded(b) case Some(n) => Some(n + |a|) case None => None
  {
    if a == [] {
      assert a + b == b;
    } else {
      assert (a + b)[1..] == a[1..] + b;
      TrueFirstAddedAppend(a[1..], b);
    }
  }

  lemma {:induction false} NothingAddedUnchanged(gap: seq<string>)
    ensures TrueFirstAdded(Unchanged(gap)).None?
  {
    if gap != [] {
      assert Unchanged(gap)[1..] == Unchanged(gap[1..]);
      NothingAddedUnchanged(gap[1..]);
    }
  }

  lemma NewFileFirstAdded(h: Hunk, rest: seq<Hunk>)
    ensures TrueFirstAdded(NewFile([h] + rest))
         == match TrueFirstAdded(NewLines(h.lines))
            case Some(n) => Some(n + |h.gap|)
            case None =>
              match TrueFirstAdded(NewFile(rest))
              case Some(n) => Some(n + |h.gap| + |NewLines(h.lines)|)
              case None => None
  {
    var gap, added := Unchanged(h.gap), NewLines(h.lines);
    assert ([h] + rest)[1..] == rest;
    NothingAddedUnchanged(h.gap);
    TrueFirstAddedAppend(gap, added);
    TrueFirstAddedAppend(gap + added, NewFile(rest));
  }

  lemma {:induction false} TrueFirstAddedBound(file: seq<(string, bool)>)
    ensures TrueFirstAdded(file).Some? ==> 1 <= TrueFirstAdded(file).value <= |file|
  {
    if file != [] {
      TrueFirstAddedBound(file[1..]);
    }
  }

  // Printed text

  lemma ChompAfter(a: string, b: string)
    requires a != "" && a[|a| - 1] != '\r'
    ensures Chomp(a + b) == a + Chomp(b)
  {
  }

  lemma FirstCharDecides(s: string)
    requires s != ""
    ensures StartsWith(s, "@@") ==> s[0] == '@'
    ensures StartsWith(s, "+") <==> s[0] == '+'
    ensures StartsWith(s, "-") <==> s[0] == '-'
  {
    assert s[..1] == [s[0]];
    assert "@@"[0] == '@';
  }

  predicate RangeChars(s: string) {
    forall c <- s :: IsDigit(c) || c == ','
  }

  lemma PrintRangeChars(before: nat, count: nat)
    ensures RangeChars(PrintRange(before, count))
    ensures PrintRange(before, count) != ""
    ensures Before(PrintRange(before, count), ',') == Decimal(RangeStart(before, count))
  {
    var start := Decimal(RangeStart(before, count));
    BeforeIs(start, ',', if count == 1 then "" else "," + Decimal(count));
  }

  /** The text between the first `" +"` of a header and the next space is the new range. */
  lemma NewRangeIs(was: string, range: string, heading: string)
    requires RangeChars(was) && RangeChars(range)
    ensures var header := "@@ -" + was + " +" + range + " @@" + heading;
            && After(header, " +").Some?
            && Before(After(header, " +").value, ' ') == range
  {
    var a, sep, b := "@@ -" + was, " +", range + " @@" + heading;
    var header := a + sep + b;
    assert "@@ -" + was + " +" + range + " @@" + heading == header;
    forall i: nat | i < |a| ensures !OccursAt(header, sep, i) {
      assert i + 2 <= |header| ==> header[i..i + 2] == [header[i], header[i + 1]];
      if i >= 4 {
        assert header[i] == was[i - 4] && was[i - 4] in was;
      }
    }
    AfterIs(a, sep, b);
    assert ' ' !in range;
    assert b == range + (" @@" + heading);
    BeforeIs(range, ' ', " @@" + heading);
  }

  lemma HeaderIsRead(h: Hunk, oldBefore: nat, newBefore: nat)
    ensures var header := Chomp(PrintHeader(h, oldBefore, newBefore));
            && StartsWith(header, "@@")
            && HunkStart(header) == Some(RangeStart(newBefore, |NewLines(h.lines)|))
  {
    var was, now := PrintRange(oldBefore, OldCount(h.lines)), PrintRange(newBefore, |NewLines(h.lines)|);
    var start := Decimal(RangeStart(newBefore, |NewLines(h.lines)|));
    PrintRangeChars(oldBefore, OldCount(h.lines));
    PrintRangeChars(newBefore, |NewLines(h.lines)|);
    ChompAfter("@@ -" + was + " +" + now + " @@", h.heading);
    NewRangeIs(was, now, Chomp(h.heading));
    assert !StartsWith(start, "+") by {
      assert IsDigit(start[0]);
    }
    ParseDecimal(RangeStart(newBefore, |NewLines(h.lines)|));
  }

  /** The printed patch, with or without the newline after its last line. */
  predicate PrintsAs(hunks: seq<Hunk>, patch: string) {
    var text := Unlines(PrintHunks(hunks));
    patch == text || patch + "\n" == text
  }

  predicate NoBreaks(s: string) {
    forall c <- s :: !IsBreak(c)
  }

  lemma HeaderHasNoBreaks(h: Hunk, oldBefore: nat, newBefore: nat)
    requires h.heading == ""
    ensures NoBreaks(PrintHeader(h, oldBefore, newBefore))
    ensures Chomp(PrintHeader(h, oldBefore, newBefore)) == PrintHeader(h, oldBefore, newBefore)
  {
    var was, now := PrintRange(oldBefore, OldCount(h.lines)), PrintRange(newBefore, |NewLines(h.lines)|);
    PrintRangeChars(oldBefore, OldCount(h.lines));
    PrintRangeChars(newBefore, |NewLines(h.lines)|);
    var header := PrintHeader(h, oldBefore, newBefore);
    assert header[|header| - 1] == '@';
    forall c <- header ensures !IsBreak(c) {
      assert c in was || c in now || c in "@@ -" || c in " +";
    }
  }
}
