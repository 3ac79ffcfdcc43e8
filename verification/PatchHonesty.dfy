/** When the patch line locator is right, line by line, for patches whose broken lines hold no impostors. */
module PatchHonesty {
  import opened Basics
  import opened Text
  import opened PatchLocator
  import opened PatchPieces

  type Reading = string -> Option<int>

  /** Neither a header nor an added line to the scan. */
  predicate Plain(ks: seq<Kind>) {
    forall k <- ks :: k.Counts? || k.Skips?
  }

  function Counted(ks: seq<Kind>): nat {
    if ks == [] then 0 else (if ks[0].Counts? then 1 else 0) + Counted(ks[1..])
  }

  function HeadingKinds(start: Reading, h: Hunk): seq<Kind> {
    Map(KindOf(start), Continuations(h.heading))
  }

  /** A line the scan stops at: an added one that does not start with `++`. */
  predicate HasStop(lines: seq<Line>) {
    lines != [] && (FirstKind(lines[0]).Stops? || HasStop(lines[1..]))
  }

  /** The lines before the one the scan stops at hold no impostors: no piece after the first looks like a header or
      an added line. That line and what comes after it are free. */
  predicate HonestUpTo(start: Reading, lines: seq<Line>) {
    lines == [] || FirstKind(lines[0]).Stops? ||
    (Plain(MoreKinds(start, lines[0])) && HonestUpTo(start, lines[1..]))
  }

  /** The same for a patch: its headings and lines, up to the first line the scan stops at. */
  predicate HonestHunks(start: Reading, hunks: seq<Hunk>) {
    hunks == [] ||
    (&& Plain(HeadingKinds(start, hunks[0])) && HonestUpTo(start, hunks[0].lines)
     && (HasStop(hunks[0].lines) || HonestHunks(start, hunks[1..])))
  }

  /** Every line before the first added one counts for just what it prints: no further piece of it counts, and it is
      no end-of-file marker and no removed line that looks like a file header. The added one does not start with
      `++`. */
  predicate Exact(start: Reading, lines: seq<Line>) {
    lines == [] ||
    match lines[0]
    case Added(t) => !StartsWith(t, "++")
    case Context(_) => Counted(MoreKinds(start, lines[0])) == 0 && Exact(start, lines[1..])
    case Removed(t) => !StartsWith(t, "--") && Counted(MoreKinds(start, lines[0])) == 0 && Exact(start, lines[1..])
    case NoNewline => false
  }

  /** In the first hunk that adds anything, the heading and the lines count for just what they print. */
  predicate ExactHunks(start: Reading, hunks: seq<Hunk>) {
    if hunks == [] then true
    else if HasAdded(hunks[0].lines) then
      Counted(HeadingKinds(start, hunks[0])) == 0 && Exact(start, hunks[0].lines)
    else ExactHunks(start, hunks[1..])
  }

  // Lines without impostors, as numbers

  /** How far one line without impostors moves the scan. */
  function Advance(start: Reading, l: Line): nat {
    (if FirstKind(l).Counts? then 1 else 0) + Counted(MoreKinds(start, l))
  }

  /** Where the scan of lines without impostors stops. */
  function Walk(start: Reading, lines: seq<Line>, n: int): Option<int> {
    if lines == [] then None
    else if FirstKind(lines[0]).Stops? then Some(n)
    else Walk(start, lines[1..], n + Advance(start, lines[0]))
  }

  lemma FirstAddedStep(lines: seq<Line>)
    requires lines != []
    ensures TrueFirstAdded(NewLines(lines))
         == match lines[0]
            case Added(_) => Some(1)
            case Context(_) =>
              (match TrueFirstAdded(NewLines(lines[1..])) case Some(m) => Some(m + 1) case None => None)
            case _ => TrueFirstAdded(NewLines(lines[1..]))
    ensures HasAdded(lines) <==> lines[0].Added? || HasAdded(lines[1..])
  {
    assert lines == [lines[0]] + lines[1..];
    match lines[0]
    case Context(t) => assert NewLines(lines)[1..] == NewLines(lines[1..]);
    case Added(t) => assert NewLines(lines)[0].1;
    case Removed(_) => assert NewLines(lines) == NewLines(lines[1..]);
    case NoNewline => assert NewLines(lines) == NewLines(lines[1..]);
  }

  /** What an answer for some lines amounts to: it is never too low, and right exactly if every line counts for what
      it prints. */
  predicate Answers(stops: bool, exact: bool, n: int, found: Option<int>, t: Option<nat>) {
    && (found.Some? <==> stops)
    && (stops ==> t.Some? && found.value >= n && found.value >= n + t.value - 1)
    && (stops ==> (found.value == n + t.value - 1 <==> exact))
    && (t.Some? && !stops ==> !exact)
  }

  lemma {:induction false} WalkAnswers(start: Reading, lines: seq<Line>, n: int)
    ensures Answers(HasStop(lines), Exact(start, lines), n, Walk(start, lines, n), TrueFirstAdded(NewLines(lines)))
    ensures TrueFirstAdded(NewLines(lines)).Some? <==> HasAdded(lines)
  {
    hide MoreKinds, StartsWith, NewLines, HasAdded, TrueFirstAdded;
    if lines == [] {
      NothingAdded();
    } else {
      FirstAddedStep(lines);
      WalkAnswers(start, lines[1..], n + Advance(start, lines[0]));
    }
  }

  lemma NothingAdded()
    ensures TrueFirstAdded(NewLines([])).None? && !HasAdded([])
  {
  }

  // Scanning plain pieces

  lemma {:induction false} PlainScan(ks: seq<Kind>, more: seq<Kind>, n: int)
    requires Plain(ks)
    ensures ScanKinds(ks + more, Some(n)) == ScanKinds(more, Some(n + Counted(ks)))
  {
    if ks == [] {
      assert ks + more == more;
    } else {
      assert (ks + more)[1..] == ks[1..] + more;
      assert ks[0] in ks;
      PlainScan(ks[1..], more, n);
      PlainScan(ks[1..], more, n + 1);
    }
  }

  /** One kind, plain ones after it, and what follows. */
  lemma KindThen(k: Kind, ks: seq<Kind>, rest: seq<Kind>, n: int)
    requires !k.Resets? && (k.Stops? || Plain(ks))
    ensures ScanKinds([k] + (ks + rest), Some(n))
         == if k.Stops? then Some(n)
            else ScanKinds(rest, Some(n + ((if k.Counts? then 1 else 0) + Counted(ks))))
  {
    assert ([k] + (ks + rest))[1..] == ks + rest;
    if !k.Stops? {
      PlainScan(ks, rest, if k.Counts? then n + 1 else n);
    }
  }

  /** A header, or the end, makes the scan forget where it was. */
  predicate Afresh(ks: seq<Kind>) {
    ks == [] || ks[0].Resets?
  }

  lemma AfreshScan(ks: seq<Kind>, n: int)
    requires Afresh(ks)
    ensures ScanKinds([] + ks, Some(n)) == ScanKinds(ks, None)
  {
    assert [] + ks == ks;
  }

  /** The kinds of some lines. */
  function LinesOf(start: Reading, lines: seq<Line>): seq<Kind> {
    KindsOf(Map(LineItem(start), lines))
  }

  lemma MapUnfold<T, U>(f: T -> U, xs: seq<T>)
    requires xs != []
    ensures Map(f, xs) != [] && Map(f, xs)[0] == f(xs[0]) && Map(f, xs)[1..] == Map(f, xs[1..])
  {
  }

  lemma KindsUnfold(items: seq<Item>)
    requires items != []
    ensures KindsOf(items) == items[0].kinds + KindsOf(items[1..])
  {
  }

  lemma LineItemKinds(start: Reading, l: Line)
    ensures LineItem(start)(l).kinds == [FirstKind(l)] + MoreKinds(start, l)
  {
    hide FirstKind, MoreKinds;
  }

  lemma LinesUnfold(start: Reading, lines: seq<Line>)
    requires lines != []
    ensures LinesOf(start, lines) == [FirstKind(lines[0])] + MoreKinds(start, lines[0]) + LinesOf(start, lines[1..])
  {
    hide FirstKind, MoreKinds, LineItem, KindsOf, Map;
    MapUnfold(LineItem(start), lines);
    KindsUnfold(Map(LineItem(start), lines));
    LineItemKinds(start, lines[0]);
  }

  lemma NoLines(start: Reading)
    ensures LinesOf(start, []) == []
  {
  }

  lemma Regroup(a: seq<Kind>, b: seq<Kind>, c: seq<Kind>, d: seq<Kind>)
    ensures a + b + c + d == a + (b + (c + d))
  {
  }

  lemma KindOfLine(l: Line)
    ensures !FirstKind(l).Resets?
  {
  }

  lemma AdvanceIs(start: Reading, l: Line)
    ensures Advance(start, l) == (if FirstKind(l).Counts? then 1 else 0) + Counted(MoreKinds(start, l))
  {
    hide FirstKind, MoreKinds, Counted;
  }

  /** One line, and what follows. */
  lemma LineScan(start: Reading, lines: seq<Line>, more: seq<Kind>, n: int)
    requires lines != []
    requires FirstKind(lines[0]).Stops? || Plain(MoreKinds(start, lines[0]))
    ensures ScanKinds(LinesOf(start, lines) + more, Some(n))
         == if FirstKind(lines[0]).Stops? then Some(n)
            else ScanKinds(LinesOf(start, lines[1..]) + more, Some(n + Advance(start, lines[0])))
  {
    var k, ks, rest := FirstKind(lines[0]), MoreKinds(start, lines[0]), LinesOf(start, lines[1..]);
    hide *;
    AdvanceIs(start, lines[0]);
    LinesUnfold(start, lines);
    Regroup([k], ks, rest, more);
    KindOfLine(lines[0]);
    KindThen(k, ks, rest + more, n);
  }

  lemma {:induction false} HonestScan(start: Reading, lines: seq<Line>, more: seq<Kind>, n: int)
    requires HonestUpTo(start, lines) && Afresh(more)
    ensures ScanKinds(LinesOf(start, lines) + more, Some(n))
         == if HasStop(lines) then Walk(start, lines, n) else ScanKinds(more, None)
  {
    hide ScanKinds, LinesOf, MoreKinds, FirstKind, Plain, Advance, Afresh;
    if lines == [] {
      NoLines(start);
      AfreshScan(more, n);
    } else {
      LineScan(start, lines, more, n);
      if !FirstKind(lines[0]).Stops? {
        HonestScan(start, lines[1..], more, n + Advance(start, lines[0]));
      }
    }
  }

  // Hunks

  /** How many lines of the patched file end with a hunk. */
  function LinesPast(h: Hunk, newBefore: nat): nat {
    newBefore + |h.gap| + |NewLines(h.lines)|
  }

  function Start(h: Hunk, newBefore: nat): nat {
    RangeStart(newBefore + |h.gap|, |NewLines(h.lines)|)
  }

  /** Where the scan is after a heading without impostors. */
  function AfterHeading(start: Reading, h: Hunk, newBefore: nat): int {
    Start(h, newBefore) + Counted(HeadingKinds(start, h))
  }

  /** What comes after a hunk. */
  function Later(start: Reading, hunks: seq<Hunk>, newBefore: nat): seq<Kind>
    requires hunks != []
  {
    KindsOf(Items(start, hunks[1..], LinesPast(hunks[0], newBefore)))
  }

  lemma HeaderItemKinds(start: Reading, h: Hunk, newBefore: nat)
    ensures HeaderItem(start, h, newBefore).kinds == [Resets(Some(Start(h, newBefore)))] + HeadingKinds(start, h)
  {
    hide NewLines, Continuations, KindOf, Map, RangeStart;
  }

  lemma HunkKindsAre(start: Reading, hunks: seq<Hunk>, newBefore: nat)
    requires hunks != []
    ensures KindsOf(Items(start, hunks, newBefore))
         == [Resets(Some(Start(hunks[0], newBefore)))] + HeadingKinds(start, hunks[0])
            + LinesOf(start, hunks[0].lines) + Later(start, hunks, newBefore)
  {
    hide HeaderItem, LineItem, Map, HeadingKinds, NewLines, KindsOf, Items, Start;
    NextItems(start, hunks, newBefore);
    HeaderItemKinds(start, hunks[0], newBefore);
    OneHunkKinds(HeaderItem(start, hunks[0], newBefore), Map(LineItem(start), hunks[0].lines),
                 Items(start, hunks[1..], LinesPast(hunks[0], newBefore)));
  }

  lemma ItemsStartAfresh(start: Reading, hunks: seq<Hunk>, newBefore: nat)
    ensures Afresh(KindsOf(Items(start, hunks, newBefore)))
  {
    if hunks != [] {
      HunkKindsAre(start, hunks, newBefore);
      hide KindsOf, Items, HeadingKinds, LinesOf, Later, Start;
    }
  }

  lemma LaterStartsAfresh(start: Reading, hunks: seq<Hunk>, newBefore: nat)
    requires hunks != []
    ensures Afresh(Later(start, hunks, newBefore))
  {
    hide Afresh, KindsOf, Items, LinesPast;
    ItemsStartAfresh(start, hunks[1..], LinesPast(hunks[0], newBefore));
  }

  lemma AfterHeadingIs(start: Reading, h: Hunk, newBefore: nat)
    ensures AfterHeading(start, h, newBefore) == Start(h, newBefore) + Counted(HeadingKinds(start, h))
  {
    hide Start, Counted, HeadingKinds;
  }

  lemma HeaderScan(n: int, heading: seq<Kind>, more: seq<Kind>)
    requires Plain(heading)
    ensures ScanKinds([Resets(Some(n))] + (heading + more), None) == ScanKinds(more, Some(n + Counted(heading)))
  {
    assert ([Resets(Some(n))] + (heading + more))[1..] == heading + more;
    PlainScan(heading, more, n);
  }

  lemma HeadingScan(n: int, heading: seq<Kind>, lines: seq<Kind>, later: seq<Kind>)
    requires Plain(heading)
    ensures ScanKinds([Resets(Some(n))] + heading + lines + later, None)
         == ScanKinds(lines + later, Some(n + Counted(heading)))
  {
    hide *;
    Regroup([Resets(Some(n))], heading, lines, later);
    HeaderScan(n, heading, lines + later);
  }

  /** A hunk without impostors, and what follows. */
  lemma HunkScanIs(start: Reading, hunks: seq<Hunk>, newBefore: nat)
    requires hunks != [] && Plain(HeadingKinds(start, hunks[0])) && HonestUpTo(start, hunks[0].lines)
    ensures ScanKinds(KindsOf(Items(start, hunks, newBefore)), None)
         == if HasStop(hunks[0].lines) then Walk(start, hunks[0].lines, AfterHeading(start, hunks[0], newBefore))
            else ScanKinds(Later(start, hunks, newBefore), None)
  {
    hide *;
    var h, later := hunks[0], Later(start, hunks, newBefore);
    var n, heading, lines := Start(h, newBefore), HeadingKinds(start, h), LinesOf(start, h.lines);
    AfterHeadingIs(start, h, newBefore);
    HunkKindsAre(start, hunks, newBefore);
    LaterStartsAfresh(start, hunks, newBefore);
    HonestScan(start, h.lines, later, n + Counted(heading));
    HeadingScan(n, heading, lines, later);
  }

  /** An answer for a patch: right exactly if the first hunk that adds anything is exact, and past what came before. */
  predicate AnswersAll(exact: bool, newBefore: nat, found: Option<int>, t: Option<nat>) {
    && (found.Some? ==> found.value > newBefore)
    && (found == Shift(t, newBefore) <==> exact)
  }

  lemma NextExact(start: Reading, hunks: seq<Hunk>)
    requires hunks != []
    ensures ExactHunks(start, hunks)
            <==> if HasAdded(hunks[0].lines) then
                   Counted(HeadingKinds(start, hunks[0])) == 0 && Exact(start, hunks[0].lines)
                 else ExactHunks(start, hunks[1..])
  {
    hide HasAdded, Counted, HeadingKinds, Exact;
  }

  /** The first added line over a hunk of `count` lines after `gap` unchanged ones, and what follows. */
  function Over(gap: nat, count: nat, t: Option<nat>, later: Option<nat>): Option<nat> {
    match t
    case Some(n) => Some(n + gap)
    case None => match later case Some(n) => Some(n + gap + count) case None => None
  }

  lemma StepCases(gap: nat, count: nat, newBefore: nat, extra: nat, exact: bool, stops: bool, t: Option<nat>,
      later: Option<nat>, found: Option<int>)
    requires t.Some? ==> 1 <= t.value <= count
    requires t.Some? && !stops ==> !exact
    requires stops ==> Answers(stops, exact, RangeStart(newBefore + gap, count) + extra, found, t)
    requires !stops && found.Some? ==> found.value > newBefore + gap + count
    ensures found.Some? ==> found.value > newBefore
    ensures stops ==> (found == Shift(Over(gap, count, t, later), newBefore) <==> extra == 0 && exact)
    ensures !stops && t.Some? ==> found != Shift(Over(gap, count, t, later), newBefore)
    ensures !stops && t.None?
            ==> (found == Shift(Over(gap, count, t, later), newBefore)
                 <==> found == Shift(later, newBefore + gap + count))
  {
  }

  lemma FirstAddedOver(h: Hunk, rest: seq<Hunk>)
    ensures TrueFirstAdded(NewFile([h] + rest))
         == Over(|h.gap|, |NewLines(h.lines)|, TrueFirstAdded(NewLines(h.lines)), TrueFirstAdded(NewFile(rest)))
  {
    NewFileFirstAdded(h, rest);
    hide NewFile, NewLines, TrueFirstAdded;
  }

  lemma NumbersOf(start: Reading, h: Hunk, newBefore: nat)
    ensures LinesPast(h, newBefore) == newBefore + |h.gap| + |NewLines(h.lines)|
    ensures AfterHeading(start, h, newBefore)
         == RangeStart(newBefore + |h.gap|, |NewLines(h.lines)|) + Counted(HeadingKinds(start, h))
  {
    hide NewLines, HeadingKinds, Counted, RangeStart;
  }

  lemma AnswersStep(start: Reading, hunks: seq<Hunk>, newBefore: nat, found: Option<int>)
    requires hunks != []
    requires HasStop(hunks[0].lines)
             ==> found == Walk(start, hunks[0].lines, AfterHeading(start, hunks[0], newBefore))
    requires !HasStop(hunks[0].lines)
             ==> AnswersAll(ExactHunks(start, hunks[1..]), LinesPast(hunks[0], newBefore), found,
                            TrueFirstAdded(NewFile(hunks[1..])))
    ensures AnswersAll(ExactHunks(start, hunks), newBefore, found, TrueFirstAdded(NewFile(hunks)))
  {
    hide HeadingKinds, NewLines, NewFile, HasAdded, Exact, HasStop, Walk, TrueFirstAdded, Counted, AfterHeading,
      ExactHunks, LinesPast, RangeStart, Over, Shift, Answers;
    var h, rest := hunks[0], hunks[1..];
    var t, later := TrueFirstAdded(NewLines(h.lines)), TrueFirstAdded(NewFile(rest));
    NumbersOf(start, h, newBefore);
    NextExact(start, hunks);
    FirstAddedOver(h, rest);
    assert hunks == [h] + rest;
    WalkAnswers(start, h.lines, AfterHeading(start, h, newBefore));
    TrueFirstAddedBound(NewLines(h.lines));
    NoStopNotExact(start, h.lines, AfterHeading(start, h, newBefore));
    StepCases(|h.gap|, |NewLines(h.lines)|, newBefore, Counted(HeadingKinds(start, h)), Exact(start, h.lines),
              HasStop(h.lines), t, later, found);
  }

  lemma NoStopNotExact(start: Reading, lines: seq<Line>, n: int)
    ensures var t := TrueFirstAdded(NewLines(lines));
            && (t.Some? && !HasStop(lines) ==> !Exact(start, lines))
            && (HasStop(lines) ==> t.Some?)
  {
    hide NewLines, TrueFirstAdded, HasStop, Exact, Walk;
    WalkAnswers(start, lines, n);
  }

  lemma {:induction false} HonestHunksScan(start: Reading, hunks: seq<Hunk>, newBefore: nat)
    requires HonestHunks(start, hunks)
    ensures AnswersAll(ExactHunks(start, hunks), newBefore, ScanKinds(KindsOf(Items(start, hunks, newBefore)), None),
                       TrueFirstAdded(NewFile(hunks)))
    decreases hunks
  {
    if hunks == [] {
      NoHunks(start, newBefore);
    } else {
      var h := hunks[0];
      assert Later(start, hunks, newBefore) == KindsOf(Items(start, hunks[1..], LinesPast(h, newBefore)));
      var found := ScanKinds(KindsOf(Items(start, hunks, newBefore)), None);
      hide Items, KindsOf, HeadingKinds, NewLines, ScanKinds, HonestUpTo, HasStop, Plain, Later, LinesPast, Walk,
        AfterHeading, AnswersAll, Counted;
      HunkScanIs(start, hunks, newBefore);
      if !HasStop(h.lines) {
        HonestHunksScan(start, hunks[1..], LinesPast(h, newBefore));
      }
      AnswersStep(start, hunks, newBefore, found);
    }
  }

  lemma NoHunks(start: Reading, newBefore: nat)
    ensures AnswersAll(ExactHunks(start, []), newBefore, ScanKinds(KindsOf(Items(start, [], newBefore)), None),
                       TrueFirstAdded(NewFile([])))
  {
  }

  /** On every printed patch whose headings and lines hold no impostors up to the line the scan stops at, the locator
      answers with the number of the first added line of the patched file, or None when nothing is added, if and only
      if the first hunk that adds anything counts for just what it prints. */
  lemma LocatorIsRightIff(hunks: seq<Hunk>, patch: string)
    requires PrintsAs(hunks, patch) && HonestHunks(HunkStart, hunks)
    ensures FirstAddedLine(patch) == Shift(TrueFirstAdded(NewFile(hunks)), 0) <==> ExactHunks(HunkStart, hunks)
  {
    LocatorIsKinds(hunks, patch);
    HonestHunksScan(HunkStart, hunks, 0);
    hide HunkStart, Items, KindsOf, ScanKinds, PrintsAs, TrueFirstAdded, NewFile, ExactHunks, HonestHunks;
  }

  // Which texts are broken

  /** A text in one piece, a final carriage return allowed as in CRLF files, leaves nothing after its first piece. */
  lemma CleanTextIsOnePiece(text: string)
    requires CleanLine(text)
    ensures Continuations(text) == []
  {
    FirstLineIs(text, "");
    var s := text + "\n";
    assert text + "\n" + "" == s;
    assert s[|text| + 1..] == "" && SplitLines("") == [];
    assert Pieces(text) == [s[..|Chomp(text)|]] + [];
  }

  /** A text with one break inside leaves what stands after it. */
  lemma BrokenTextIsTwoPieces(a: string, c: char, b: string)
    requires NoBreaks(a) && NoBreaks(b) && IsBreak(c) && (c == '\r' ==> b != "")
    ensures Continuations(a + [c] + b) == [b]
  {
    var t := [c] + b + "\n";
    assert a + ([c] + b) == a + [c] + b;
    PiecesAfter(a, [c] + b);
    OnePiece(b);
    assert b != "" ==> b[0] in b;
    assert t[1..] == b + "\n";
    assert FirstLine(t) == (0, 1);
    assert t[..0] == "";
  }

  /** The answer on a patch of one hunk without impostors. */
  lemma OneHunkAnswer(h: Hunk, patch: string)
    requires PrintsAs([h], patch) && h.heading == ""
    requires HonestUpTo(HunkStart, h.lines) && HasStop(h.lines)
    ensures FirstAddedLine(patch) == Walk(HunkStart, h.lines, Start(h, 0))
  {
    hide *;
    NoHeading(HunkStart, h);
    LocatorIsKinds([h], patch);
    AfterHeadingIs(HunkStart, h, 0);
    HunkScanIs(HunkStart, [h], 0);
  }

  lemma NoHeading(start: Reading, h: Hunk)
    requires h.heading == ""
    ensures Plain(HeadingKinds(start, h)) && Counted(HeadingKinds(start, h)) == 0
  {
    CleanTextIsOnePiece("");
    hide Continuations, KindOf;
    assert HeadingKinds(start, h) == [];
  }

  /** One line without impostors: where it leaves the scan. */
  lemma StepOver(start: Reading, l: Line, rest: seq<Line>, n: int)
    requires !FirstKind(l).Stops? && Plain(MoreKinds(start, l))
    ensures HasStop([l] + rest) <==> HasStop(rest)
    ensures HonestUpTo(start, [l] + rest) <==> HonestUpTo(start, rest)
    ensures Walk(start, [l] + rest, n) == Walk(start, rest, n + Advance(start, l))
  {
    hide MoreKinds, FirstKind, Plain, Advance;
    assert ([l] + rest)[1..] == rest;
  }

  lemma StopHere(start: Reading, l: Line, rest: seq<Line>, n: int)
    requires FirstKind(l).Stops?
    ensures HasStop([l] + rest) && HonestUpTo(start, [l] + rest) && Walk(start, [l] + rest, n) == Some(n)
  {
  }

  lemma RewriteWalk(start: Reading, was: string, now: string, n: int)
    requires Continuations(was) == [] && !StartsWith(was, "--") && !StartsWith(now, "++")
    ensures var lines := [Removed(was), NoNewline, Added(now), NoNewline];
            HasStop(lines) && HonestUpTo(start, lines) && Walk(start, lines, n) == Some(n + 1)
  {
    hide Continuations, KindOf, HasStop, HonestUpTo, Walk;
    assert MoreKinds(start, Removed(was)) == [];
    StopHere(start, Added(now), [NoNewline], n + 1);
    StepOver(start, NoNewline, [Added(now)] + [NoNewline], n);
    StepOver(start, Removed(was), [NoNewline] + ([Added(now)] + [NoNewline]), n);
    assert [Removed(was), NoNewline, Added(now), NoNewline]
        == [Removed(was)] + ([NoNewline] + ([Added(now)] + [NoNewline]));
  }

  lemma RewriteMeans(was: string, now: string)
    ensures var lines := [Removed(was), NoNewline, Added(now), NoNewline];
            NewLines(lines) == [(now, true)] && TrueFirstAdded(NewLines(lines)) == Some(1)
  {
    var lines := [Removed(was), NoNewline, Added(now), NoNewline];
    assert lines[1..] == [NoNewline, Added(now), NoNewline];
    assert lines[1..][1..] == [Added(now), NoNewline];
    assert NewLines([Added(now), NoNewline][1..]) == [];
    assert NewLines(lines[1..][1..]) == [(now, true)];
    assert NewLines(lines[1..]) == [(now, true)];
  }

  lemma BrokenWalk(start: Reading, t: string, b: string, added: string, n: int)
    requires Continuations(t) == [b] && (b == "" || b[0] !in "@+-") && !StartsWith(added, "++")
    ensures var lines := [Context(t), Added(added)];
            HasStop(lines) && HonestUpTo(start, lines) && Walk(start, lines, n) == Some(n + 2)
  {
    BareKind(start, b);
    hide Continuations, KindOf, HasStop, HonestUpTo, Walk;
    assert MoreKinds(start, Context(t)) == [Counts];
    assert [Counts][1..] == [];
    assert Advance(start, Context(t)) == 2;
    StopHere(start, Added(added), [], n + 2);
    StepOver(start, Context(t), [Added(added)] + [], n);
    assert [Context(t), Added(added)] == [Context(t)] + ([Added(added)] + []);
  }

  lemma BareKind(start: Reading, p: string)
    requires p == "" || p[0] !in "@+-"
    ensures KindOf(start)(p) == Counts
  {
    if p != "" {
      assert "@+-"[0] == '@' && "@+-"[1] == '+' && "@+-"[2] == '-';
      KindBySign(start, p);
    } else {
      assert |"@@"| == 2 && |"+"| == 1 && |"-"| == 1;
      assert !StartsWith(p, "@@") && !StartsWith(p, "+") && !StartsWith(p, "-");
    }
  }

  lemma BrokenMeans(t: string, added: string)
    ensures var lines := [Context(t), Added(added)];
            NewLines(lines) == [(t, false), (added, true)] && TrueFirstAdded(NewLines(lines)) == Some(2)
  {
    var lines := [Context(t), Added(added)];
    assert lines[1..] == [Added(added)];
    assert NewLines(lines[1..]) == [(added, true)];
    assert NewLines(lines)[1..] == [(added, true)];
  }

  lemma OneHunkFirstAdded(h: Hunk)
    requires TrueFirstAdded(NewLines(h.lines)).Some?
    ensures TrueFirstAdded(NewFile([h])) == Some(TrueFirstAdded(NewLines(h.lines)).value + |h.gap|)
  {
    hide NewLines, NewFile, TrueFirstAdded;
    FirstAddedOver(h, []);
    assert [h] + [] == [h];
  }

  /** A realistic failure: rewriting the last line of a file without a final newline prints an end-of-file
      marker between the removed and the added line, and the answer is one too high. */
  lemma LastLineRewriteIsMislocated(gap: seq<string>, was: string, now: string, patch: string)
    requires CleanLine(was) && !StartsWith(was, "--") && !StartsWith(now, "++")
    requires PrintsAs([Hunk(gap, [Removed(was), NoNewline, Added(now), NoNewline], "")], patch)
    ensures FirstAddedLine(patch) == Some(|gap| + 2)
    ensures TrueFirstAdded(NewFile([Hunk(gap, [Removed(was), NoNewline, Added(now), NoNewline], "")])) == Some(|gap| + 1)
  {
    var h := Hunk(gap, [Removed(was), NoNewline, Added(now), NoNewline], "");
    CleanTextIsOnePiece(was);
    RewriteWalk(HunkStart, was, now, |gap| + 1);
    RewriteMeans(was, now);
    hide PrintsAs, HonestUpTo, HasStop, Walk, TrueFirstAdded, NewFile, NewLines, HunkStart, FirstAddedLine;
    OneHunkAnswer(h, patch);
    OneHunkFirstAdded(h);
  }

  /** Another: a context line with a form feed or the like inside counts twice, and the answer is one too high. */
  lemma BrokenContextIsMislocated(gap: seq<string>, a: string, c: char, b: string, added: string, patch: string)
    requires NoBreaks(a) && NoBreaks(b) && IsBreak(c) && (c == '\r' ==> b != "")
    requires (b == "" || b[0] !in "@+-") && !StartsWith(added, "++")
    requires PrintsAs([Hunk(gap, [Context(a + [c] + b), Added(added)], "")], patch)
    ensures FirstAddedLine(patch) == Some(|gap| + 3)
    ensures TrueFirstAdded(NewFile([Hunk(gap, [Context(a + [c] + b), Added(added)], "")])) == Some(|gap| + 2)
  {
    var t := a + [c] + b;
    var h := Hunk(gap, [Context(t), Added(added)], "");
    BrokenTextIsTwoPieces(a, c, b);
    BrokenWalk(HunkStart, t, b, added, |gap| + 1);
    BrokenMeans(t, added);
    hide PrintsAs, HonestUpTo, HasStop, Walk, TrueFirstAdded, NewFile, NewLines, HunkStart, FirstAddedLine;
    OneHunkAnswer(h, patch);
    OneHunkFirstAdded(h);
  }
}
