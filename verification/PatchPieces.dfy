/** The patch line locator on every printed patch, whatever characters its lines hold: `splitlines` ends a line at
    form feeds and the like too, so the locator scans pieces of lines. This module says what it makes of them. */
module PatchPieces {
  import opened Basics
  import opened Text
  import opened PatchLocator

  /** What `splitlines` makes of one printed line and its newline. */
  function Pieces(line: string): seq<string> {
    SplitLines(line + "\n")
  }

  // Splitting is line by line

  lemma {:induction false} FirstLineStays(line: string, rest: string)
    ensures FirstLine(line + "\n" + rest) == FirstLine(line + "\n")
    ensures FirstLine(line + "\n").0 <= |line|
  {
    if line != "" {
      assert (line + "\n" + rest)[1..] == line[1..] + "\n" + rest;
      assert (line + "\n")[1..] == line[1..] + "\n";
      FirstLineStays(line[1..], rest);
    }
  }

  lemma NextLine(s: string)
    requires s != ""
    ensures SplitLines(s) == [s[..FirstLine(s).0]] + SplitLines(s[FirstLine(s).1..])
  {
    hide FirstLine;
  }

  lemma {:induction false} SplitDistributes(line: string, rest: string)
    ensures SplitLines(line + "\n" + rest) == Pieces(line) + SplitLines(rest)
    decreases |line|
  {
    var s, t := line + "\n" + rest, line + "\n";
    FirstLineStays(line, rest);
    var (n, next) := FirstLine(t);
    hide FirstLine;
    NextLine(s);
    NextLine(t);
    assert s[..n] == t[..n];
    if next == |t| {
      assert s[next..] == rest && t[next..] == "";
      assert SplitLines("") == [];
    } else {
      assert s[next..] == line[next..] + "\n" + rest && t[next..] == line[next..] + "\n";
      SplitDistributes(line[next..], rest);
    }
  }

  function AllPieces(lines: seq<string>): seq<string> {
    if lines == [] then [] else Pieces(lines[0]) + AllPieces(lines[1..])
  }

  lemma {:induction false} SplitIsPieces(lines: seq<string>)
    ensures SplitLines(Unlines(lines)) == AllPieces(lines)
  {
    if lines != [] {
      SplitDistributes(lines[0], Unlines(lines[1..]));
      SplitIsPieces(lines[1..]);
    }
  }

  /** A newline at the very end adds at most an empty piece. */
  lemma {:induction false} FinalNewline(s: string)
    ensures SplitLines(s + "\n") == SplitLines(s) || SplitLines(s + "\n") == SplitLines(s) + [""]
    decreases |s|
  {
    if s == "" {
      assert s + "\n" == "\n";
      assert "\n"[1..] == "";
    } else {
      FirstLineWithNewline(s);
      var (n, next) := FirstLine(s);
      var (m, after) := FirstLine(s + "\n");
      assert (s + "\n")[..n] == s[..n];
      if after > |s| {
        assert (s + "\n")[after..] == "" && s[next..] == "";
      } else {
        assert (s + "\n")[next..] == s[next..] + "\n";
        FinalNewline(s[next..]);
        assert [s[..n]] + (SplitLines(s[next..]) + [""]) == [s[..n]] + SplitLines(s[next..]) + [""];
      }
    }
  }

  lemma {:induction false} FirstLineWithNewline(s: string)
    requires s != ""
    ensures FirstLine(s + "\n").0 == FirstLine(s).0
    ensures FirstLine(s + "\n").1 == FirstLine(s).1 || (FirstLine(s).1 == |s| && FirstLine(s + "\n").1 == |s| + 1)
  {
    if |s| > 1 {
      assert (s + "\n")[1..] == s[1..] + "\n";
      FirstLineWithNewline(s[1..]);
    } else {
      assert (s + "\n")[1..] == "\n";
    }
  }

  lemma {:induction false} ScanIgnoresEmptyEnd(start: string -> Option<int>, lines: seq<string>, n: Option<int>)
    ensures Scan(start, lines + [""], n) == Scan(start, lines, n)
  {
    if lines == [] {
      assert lines + [""] == [""] && [""][1..] == [];
    } else {
      var line := lines[0];
      assert (lines + [""])[1..] == lines[1..] + [""];
      ScanIgnoresEmptyEnd(start, lines[1..], start(line));
      ScanIgnoresEmptyEnd(start, lines[1..], n);
      ScanIgnoresEmptyEnd(start, lines[1..], None);
      if n.Some? {
        ScanIgnoresEmptyEnd(start, lines[1..], Some(n.value + 1));
      }
    }
  }

  // Kinds of pieces

  /** What the scan makes of a piece: it moves on one line, ignores it, answers, or takes it for a hunk header. */
  datatype Kind = Counts | Skips | Stops | Resets(start: Option<int>)

  function KindOf(start: string -> Option<int>): string -> Kind {
    (piece: string) =>
      if StartsWith(piece, "@@") then Resets(start(piece))
      else if StartsWith(piece, "+") && !StartsWith(piece, "+++") then Stops
      else if StartsWith(piece, "-") && !StartsWith(piece, "---") then Skips
      else Counts
  }

  function ScanKinds(ks: seq<Kind>, n: Option<int>): Option<int> {
    if ks == [] then None
    else match ks[0]
      case Resets(start) => ScanKinds(ks[1..], start)
      case Stops => if n.Some? then n else ScanKinds(ks[1..], n)
      case Skips => ScanKinds(ks[1..], n)
      case Counts => ScanKinds(ks[1..], if n.Some? then Some(n.value + 1) else None)
  }

  lemma {:induction false} ScanIsKinds(start: string -> Option<int>, lines: seq<string>, n: Option<int>)
    ensures Scan(start, lines, n) == ScanKinds(Map(KindOf(start), lines), n)
  {
    if lines != [] {
      var line := lines[0];
      assert Map(KindOf(start), lines)[1..] == Map(KindOf(start), lines[1..]);
      ScanIsKinds(start, lines[1..], start(line));
      ScanIsKinds(start, lines[1..], n);
      ScanIsKinds(start, lines[1..], None);
      if n.Some? {
        ScanIsKinds(start, lines[1..], Some(n.value + 1));
      }
    }
  }

  // A patch as kinds of pieces

  /** The pieces a line or a heading has after its first one. */
  function Continuations(text: string): seq<string> {
    var ps := Pieces(text);
    if ps == [] then [] else ps[1..]
  }

  /** One printed line: how many unchanged lines of the file it skips, what its pieces are to the scan, and how many
      lines of the patched file it prints. */
  datatype Item = Item(gap: nat, kinds: seq<Kind>, news: nat)

  /** The first piece of a line keeps its sign. */
  function FirstKind(l: Line): Kind {
    match l
    case Context(_) => Counts
    case Added(t) => if StartsWith(t, "++") then Counts else Stops
    case Removed(t) => if StartsWith(t, "--") then Counts else Skips
    case NoNewline => Counts
  }

  function MoreKinds(start: string -> Option<int>, l: Line): seq<Kind> {
    if l.NoNewline? then [] else Map(KindOf(start), Continuations(l.text))
  }

  function LineItem(start: string -> Option<int>): Line -> Item {
    (l: Line) => Item(0, [FirstKind(l)] + MoreKinds(start, l), if l.Context? || l.Added? then 1 else 0)
  }

  /** A header sets the scan to the start of its new range; what a broken heading leaves follows. */
  function HeaderItem(start: string -> Option<int>, h: Hunk, newBefore: nat): Item {
    Item(|h.gap|, [Resets(Some(RangeStart(newBefore + |h.gap|, |NewLines(h.lines)|)))]
                  + Map(KindOf(start), Continuations(h.heading)), 0)
  }

  function Items(start: string -> Option<int>, hunks: seq<Hunk>, newBefore: nat): seq<Item> {
    if hunks == [] then [] else
      var h := hunks[0];
      [HeaderItem(start, h, newBefore)] + Map(LineItem(start), h.lines)
      + Items(start, hunks[1..], newBefore + |h.gap| + |NewLines(h.lines)|)
  }

  function KindsOf(items: seq<Item>): seq<Kind> {
    if items == [] then [] else items[0].kinds + KindsOf(items[1..])
  }

  // Where the scan stands

  /** The scan's counter relative to the number of the next line of the patched file. */
  datatype Place = Lost | Ahead(lead: int) | Stopped(lead: int)

  function Pass(ks: seq<Kind>, p: Place, next: int): Place {
    if ks == [] || p.Stopped? then p else
      match ks[0]
      case Resets(start) => Pass(ks[1..], if start.Some? then Ahead(start.value - next) else Lost, next)
      case Stops => if p.Ahead? then Stopped(p.lead) else Pass(ks[1..], p, next)
      case Skips => Pass(ks[1..], p, next)
      case Counts => Pass(ks[1..], if p.Ahead? then Ahead(p.lead + 1) else p, next)
  }

  /** The same place after `k` more lines of the patched file. */
  function Behind(p: Place, k: nat): Place {
    match p
    case Ahead(lead) => Ahead(lead - k)
    case _ => p
  }

  function Fewer(toGo: Option<int>, k: nat): Option<int> {
    if toGo.Some? then Some(toGo.value - k) else None
  }

  /** The scan stops with its counter ahead of the next line by just as many lines as are still to come before the
      first added one, or runs to the end where nothing is added. `toGo` counts those lines. */
  predicate Tells(items: seq<Item>, p: Place, next: int, toGo: Option<int>) {
    if items == [] then toGo.None? else
      var i := items[0];
      var here := next + i.gap;
      match Pass(i.kinds, Behind(p, i.gap), here)
      case Stopped(lead) => Fewer(toGo, i.gap) == Some(lead)
      case p' => Tells(items[1..], Behind(p', i.news), here + i.news, Fewer(toGo, i.gap + i.news))
  }

  function Counter(p: Place, next: int): Option<int> {
    if p.Lost? then None else Some(next + p.lead)
  }

  lemma {:induction false} PassIsScan(ks: seq<Kind>, more: seq<Kind>, p: Place, next: int)
    requires !p.Stopped?
    ensures var p' := Pass(ks, p, next);
            ScanKinds(ks + more, Counter(p, next))
            == if p'.Stopped? then Some(next + p'.lead) else ScanKinds(more, Counter(p', next))
  {
    if ks == [] {
      assert ks + more == more;
    } else {
      assert (ks + more)[1..] == ks[1..] + more;
      match ks[0]
      case Resets(start) => PassIsScan(ks[1..], more, if start.Some? then Ahead(start.value - next) else Lost, next);
      case Stops =>
        if p.Lost? {
          PassIsScan(ks[1..], more, p, next);
        }
      case Skips => PassIsScan(ks[1..], more, p, next);
      case Counts => PassIsScan(ks[1..], more, if p.Ahead? then Ahead(p.lead + 1) else p, next);
    }
  }

  lemma {:induction false} TellsIff(items: seq<Item>, p: Place, next: int, toGo: Option<int>)
    requires !p.Stopped?
    ensures ScanKinds(KindsOf(items), Counter(p, next)) == (if toGo.Some? then Some(next + toGo.value) else None)
            <==> Tells(items, p, next, toGo)
  {
    if items != [] {
      var i := items[0];
      var here, q := next + i.gap, Behind(p, i.gap);
      assert Counter(q, here) == Counter(p, next);
      PassIsScan(i.kinds, KindsOf(items[1..]), q, here);
      var p' := Pass(i.kinds, q, here);
      hide ScanKinds, Pass;
      if !p'.Stopped? {
        assert Counter(Behind(p', i.news), here + i.news) == Counter(p', here);
        TellsIff(items[1..], Behind(p', i.news), here + i.news, Fewer(toGo, i.gap + i.news));
      }
    }
  }

  // The printed text

  lemma {:induction false} FirstLineAfter(a: string, b: string)
    requires NoBreaks(a) && b != ""
    ensures FirstLine(a + b) == (|a| + FirstLine(b).0, |a| + FirstLine(b).1)
  {
    if a == "" {
      assert a + b == b;
    } else {
      assert (a + b)[1..] == a[1..] + b;
      assert a[0] in a;
      FirstLineAfter(a[1..], b);
    }
  }

  /** What stands before the first break of a text stays in front of its first piece. */
  lemma PiecesAfter(a: string, b: string)
    requires NoBreaks(a)
    ensures Pieces(b) != [] && Pieces(a + b) == [a + Pieces(b)[0]] + Continuations(b)
  {
    var t := b + "\n";
    assert a + b + "\n" == a + t;
    FirstLineAfter(a, t);
    var (n, next) := FirstLine(t);
    assert (a + t)[..|a| + n] == a + t[..n] && (a + t)[|a| + next..] == t[next..];
  }

  lemma {:induction false} FirstPieceIs(b: string)
    ensures Pieces(b) != [] && NoBreaks(Pieces(b)[0]) && Pieces(b)[0] <= b
    ensures |Pieces(b)[0]| < |b| ==> IsBreak(b[|Pieces(b)[0]|])
  {
    FirstLineShape(b);
    var t := b + "\n";
    assert t[..FirstLine(t).0] == b[..FirstLine(t).0];
  }

  lemma {:induction false} FirstLineShape(b: string)
    ensures var n := FirstLine(b + "\n").0;
            n <= |b| && NoBreaks(b[..n]) && (n < |b| ==> IsBreak(b[n]))
  {
    if b == "" {
      assert b + "\n" == "\n";
    } else {
      var t := b + "\n";
      assert t[1..] == b[1..] + "\n";
      FirstLineShape(b[1..]);
      var n := FirstLine(t).0;
      if n > 0 {
        assert b[..n] == [b[0]] + b[1..][..n - 1];
      }
    }
  }

  lemma NoBreakInPrefix(b: string, sign: string, k: nat)
    requires StartsWith(b, sign) && NoBreaks(sign) && k < |b|
    ensures k < |sign| ==> !IsBreak(b[k])
  {
    if k < |sign| {
      assert b[k] == sign[k] && sign[k] in sign;
    }
  }

  /** A short sign without breaks is in front of a text exactly if it is in front of its first piece. */
  lemma SignInPiece(b: string, sign: string)
    requires NoBreaks(sign)
    ensures Pieces(b) != [] && (StartsWith(Pieces(b)[0], sign) <==> StartsWith(b, sign))
  {
    FirstPieceIs(b);
    var p := Pieces(b)[0];
    if StartsWith(b, sign) && |p| < |b| {
      NoBreakInPrefix(b, sign, |p|);
    }
  }

  lemma SignedKind(start: string -> Option<int>, sign: string, t: string, more: string)
    requires |sign| == 1 && NoBreaks(sign) && NoBreaks(more)
    ensures Pieces(t) != []
    ensures Pieces(sign + t) == [sign + Pieces(t)[0]] + Continuations(t)
    ensures StartsWith(sign + Pieces(t)[0], sign + more) <==> StartsWith(t, more)
  {
    PiecesAfter(sign, t);
    SignInPiece(t, more);
    var p := Pieces(t)[0];
    assert (sign + p)[1..] == p;
    if StartsWith(sign + p, sign + more) {
      assert (sign + p)[..|sign + more|] == sign + more;
      assert p[..|more|] == (sign + p)[1..|sign + more|] == more;
    }
    if StartsWith(p, more) {
      assert (sign + p)[..1 + |more|] == sign + p[..|more|];
    }
  }

  lemma NoBreaksInSigns()
    ensures NoBreaks(" ") && NoBreaks("+") && NoBreaks("-") && NoBreaks("++") && NoBreaks("--")
    ensures NoBreaks("\\ No newline at end of file")
  {
  }

  lemma LineKinds(start: string -> Option<int>, l: Line)
    ensures Map(KindOf(start), Pieces(PrintLine(l))) == [FirstKind(l)] + MoreKinds(start, l)
  {
    NoBreaksInSigns();
    hide Pieces, Continuations, NoBreaks;
    match l
    case Context(t) =>
      SignedKind(start, " ", t, "");
      KindBySign(start, " " + Pieces(t)[0]);
    case Added(t) =>
      SignedKind(start, "+", t, "++");
      assert "+" + "++" == "+++";
      KindBySign(start, "+" + Pieces(t)[0]);
    case Removed(t) =>
      SignedKind(start, "-", t, "--");
      assert "-" + "--" == "---";
      KindBySign(start, "-" + Pieces(t)[0]);
    case NoNewline =>
      var m := "\\ No newline at end of file";
      OnePiece(m);
      KindBySign(start, m);
  }

  lemma KindBySign(start: string -> Option<int>, p: string)
    requires p != "" && p[0] != '@'
    ensures KindOf(start)(p) == if p[0] == '+' then (if StartsWith(p, "+++") then Counts else Stops)
                                else if p[0] == '-' then (if StartsWith(p, "---") then Counts else Skips)
                                else Counts
  {
    FirstCharDecides(p);
  }

  lemma OnePiece(m: string)
    requires NoBreaks(m)
    ensures Pieces(m) == [m]
  {
    assert m + "" == m;
    PiecesAfter(m, "");
    assert "" + "\n" == "\n" && "\n"[1..] == "";
    assert Pieces("") == [""];
  }

  /** A printed header: its first piece is read as the start of the new range, the rest is the broken heading. */
  lemma HeaderKinds(h: Hunk, oldBefore: nat, newBefore: nat)
    ensures Map(KindOf(HunkStart), Pieces(PrintHeader(h, oldBefore, newBefore)))
         == [Resets(Some(RangeStart(newBefore, |NewLines(h.lines)|)))]
            + Map(KindOf(HunkStart), Continuations(h.heading))
  {
    var first := h.(heading := Pieces(h.heading)[0]);
    FirstPieceIs(h.heading);
    HeaderSplits(h, oldBefore, newBefore);
    HeaderIsRead(first, oldBefore, newBefore);
    HeaderIsOnePiece(first, oldBefore, newBefore);
    hide HunkStart, PrintHeader, Pieces, Continuations, NewLines;
    MapAppend(KindOf(HunkStart), [PrintHeader(first, oldBefore, newBefore)], Continuations(h.heading));
  }

  lemma BareHeader(h: Hunk, oldBefore: nat, newBefore: nat) returns (bare: string)
    ensures NoBreaks(bare) && bare != "" && bare[|bare| - 1] != '\r'
    ensures forall heading: string :: PrintHeader(h.(heading := heading), oldBefore, newBefore) == bare + heading
  {
    bare := PrintHeader(h.(heading := ""), oldBefore, newBefore);
    HeaderHasNoBreaks(h.(heading := ""), oldBefore, newBefore);
    assert bare[|bare| - 1] == '@';
  }

  lemma HeaderSplits(h: Hunk, oldBefore: nat, newBefore: nat)
    ensures Pieces(h.heading) != []
    ensures Pieces(PrintHeader(h, oldBefore, newBefore))
         == [PrintHeader(h.(heading := Pieces(h.heading)[0]), oldBefore, newBefore)] + Continuations(h.heading)
  {
    var bare := BareHeader(h, oldBefore, newBefore);
    hide PrintHeader, Pieces, Continuations, NoBreaks;
    assert h.(heading := h.heading) == h;
    PiecesAfter(bare, h.heading);
  }

  lemma HeaderIsOnePiece(h: Hunk, oldBefore: nat, newBefore: nat)
    requires NoBreaks(h.heading)
    ensures Chomp(PrintHeader(h, oldBefore, newBefore)) == PrintHeader(h, oldBefore, newBefore)
  {
    var bare := BareHeader(h, oldBefore, newBefore);
    hide PrintHeader;
    assert h.(heading := h.heading) == h;
    ChompAfter(bare, h.heading);
    assert h.heading != "" ==> h.heading[|h.heading| - 1] in h.heading;
  }

  lemma {:induction false} AllPiecesAppend(a: seq<string>, b: seq<string>)
    ensures AllPieces(a + b) == AllPieces(a) + AllPieces(b)
  {
    if a == [] {
      assert a + b == b;
    } else {
      hide Pieces;
      assert (a + b)[1..] == a[1..] + b;
      AllPiecesAppend(a[1..], b);
    }
  }

  lemma {:induction false} KindsAppend(a: seq<Item>, b: seq<Item>)
    ensures KindsOf(a + b) == KindsOf(a) + KindsOf(b)
  {
    if a == [] {
      assert a + b == b;
    } else {
      assert (a + b)[1..] == a[1..] + b;
      KindsAppend(a[1..], b);
    }
  }

  lemma {:induction false} LinesKinds(start: string -> Option<int>, lines: seq<Line>)
    ensures Map(KindOf(start), AllPieces(Map(PrintLine, lines))) == KindsOf(Map(LineItem(start), lines))
  {
    if lines != [] {
      hide Pieces, PrintLine, MoreKinds, FirstKind, KindOf;
      assert Map(PrintLine, lines)[1..] == Map(PrintLine, lines[1..]);
      assert Map(LineItem(start), lines)[1..] == Map(LineItem(start), lines[1..]);
      LinesKinds(start, lines[1..]);
      LineKinds(start, lines[0]);
      MapAppend(KindOf(start), Pieces(PrintLine(lines[0])), AllPieces(Map(PrintLine, lines[1..])));
    }
  }

  /** Headers whose pieces are as HeaderItem says. */
  ghost predicate HeadersAre(start: string -> Option<int>, headers: seq<string>, hunks: seq<Hunk>, newBefore: nat) {
    && |headers| == |hunks|
    && (hunks != [] ==>
          && Map(KindOf(start), Pieces(headers[0])) == HeaderItem(start, hunks[0], newBefore).kinds
          && HeadersAre(start, headers[1..], hunks[1..],
                        newBefore + |hunks[0].gap| + |NewLines(hunks[0].lines)|))
  }

  lemma NextHeader(start: string -> Option<int>, headers: seq<string>, hunks: seq<Hunk>, newBefore: nat)
    requires hunks != [] && HeadersAre(start, headers, hunks, newBefore)
    ensures |headers| == |hunks|
    ensures Map(KindOf(start), Pieces(headers[0])) == HeaderItem(start, hunks[0], newBefore).kinds
    ensures HeadersAre(start, headers[1..], hunks[1..], newBefore + |hunks[0].gap| + |NewLines(hunks[0].lines)|)
  {
    hide Pieces, HeaderItem, KindOf, NewLines;
  }

  lemma NextItems(start: string -> Option<int>, hunks: seq<Hunk>, newBefore: nat)
    requires hunks != []
    ensures Items(start, hunks, newBefore)
         == [HeaderItem(start, hunks[0], newBefore)] + Map(LineItem(start), hunks[0].lines)
            + Items(start, hunks[1..], newBefore + |hunks[0].gap| + |NewLines(hunks[0].lines)|)
  {
    hide HeaderItem, LineItem, NewLines;
  }

  lemma HunkKinds(start: string -> Option<int>, header: string, lines: seq<Line>, rest: seq<string>, first: Item,
      more: seq<Item>)
    requires Map(KindOf(start), Pieces(header)) == first.kinds
    requires Map(KindOf(start), AllPieces(rest)) == KindsOf(more)
    ensures Map(KindOf(start), AllPieces([header] + Map(PrintLine, lines) + rest))
         == KindsOf([first] + Map(LineItem(start), lines) + more)
  {
    hide *;
    LinesKinds(start, lines);
    OneHunkPieces(start, header, Map(PrintLine, lines), rest);
    OneHunkKinds(first, Map(LineItem(start), lines), more);
  }

  lemma NextLines(headers: seq<string>, hunks: seq<Hunk>)
    requires hunks != [] && |headers| == |hunks|
    ensures Interleave(headers, hunks)
         == [headers[0]] + Map(PrintLine, hunks[0].lines) + Interleave(headers[1..], hunks[1..])
  {
    hide PrintLine;
  }

  lemma NoHunkKinds(start: string -> Option<int>, newBefore: nat)
    ensures Map(KindOf(start), AllPieces(Interleave([], []))) == KindsOf(Items(start, [], newBefore))
  {
  }

  lemma {:induction false} PatchKinds(start: string -> Option<int>, headers: seq<string>, hunks: seq<Hunk>,
      newBefore: nat)
    requires HeadersAre(start, headers, hunks, newBefore) && |headers| == |hunks|
    ensures Map(KindOf(start), AllPieces(Interleave(headers, hunks))) == KindsOf(Items(start, hunks, newBefore))
    decreases hunks
  {
    hide *;
    if hunks == [] {
      assert headers == [];
      NoHunkKinds(start, newBefore);
    } else {
      NextHeader(start, headers, hunks, newBefore);
      PatchKinds(start, headers[1..], hunks[1..], newBefore + |hunks[0].gap| + |NewLines(hunks[0].lines)|);
      MoreKindsOfPatch(start, headers, hunks, newBefore);
    }
  }

  lemma MoreKindsOfPatch(start: string -> Option<int>, headers: seq<string>, hunks: seq<Hunk>, newBefore: nat)
    requires hunks != [] && |headers| == |hunks|
    requires Map(KindOf(start), Pieces(headers[0])) == HeaderItem(start, hunks[0], newBefore).kinds
    requires Map(KindOf(start), AllPieces(Interleave(headers[1..], hunks[1..])))
          == KindsOf(Items(start, hunks[1..], newBefore + |hunks[0].gap| + |NewLines(hunks[0].lines)|))
    ensures Map(KindOf(start), AllPieces(Interleave(headers, hunks))) == KindsOf(Items(start, hunks, newBefore))
  {
    hide *;
    var h := hunks[0];
    NextItems(start, hunks, newBefore);
    NextLines(headers, hunks);
    HunkKinds(start, headers[0], h.lines, Interleave(headers[1..], hunks[1..]), HeaderItem(start, h, newBefore),
              Items(start, hunks[1..], newBefore + |h.gap| + |NewLines(h.lines)|));
  }

  lemma OneHunkPieces(start: string -> Option<int>, header: string, printed: seq<string>, rest: seq<string>)
    ensures Map(KindOf(start), AllPieces([header] + printed + rest))
         == Map(KindOf(start), Pieces(header)) + Map(KindOf(start), AllPieces(printed))
            + Map(KindOf(start), AllPieces(rest))
  {
    hide Pieces, KindOf;
    AllPiecesAppend([header] + printed, rest);
    AllPiecesAppend([header], printed);
    assert [header][1..] == [];
    assert AllPieces([header]) == Pieces(header) + [] == Pieces(header);
    MapAppend(KindOf(start), Pieces(header) + AllPieces(printed), AllPieces(rest));
    MapAppend(KindOf(start), Pieces(header), AllPieces(printed));
  }

  lemma OneHunkKinds(header: Item, items: seq<Item>, more: seq<Item>)
    ensures KindsOf([header] + items + more) == header.kinds + KindsOf(items) + KindsOf(more)
  {
    KindsAppend([header] + items, more);
    KindsAppend([header], items);
    assert [header][1..] == [];
    assert KindsOf([header]) == header.kinds + [] == header.kinds;
  }

  lemma HeaderIsItem(h: Hunk, oldBefore: nat, newBefore: nat)
    ensures Map(KindOf(HunkStart), Pieces(PrintHeader(h, oldBefore, newBefore + |h.gap|)))
         == HeaderItem(HunkStart, h, newBefore).kinds
  {
    HeaderKinds(h, oldBefore, newBefore + |h.gap|);
    hide HunkStart, PrintHeader, Pieces, Continuations, NewLines, KindOf;
  }

  lemma NextPrinted(header: (Hunk, nat, nat) -> string, hunks: seq<Hunk>, oldBefore: nat, newBefore: nat)
    requires hunks != []
    ensures var h, old', new' := hunks[0], oldBefore + |hunks[0].gap|, newBefore + |hunks[0].gap|;
            var headers := PrintHeaders(header, hunks, oldBefore, newBefore);
            && headers[0] == header(h, old', new')
            && headers[1..]
               == PrintHeaders(header, hunks[1..], old' + OldCount(h.lines), new' + |NewLines(h.lines)|)
  {
    hide OldCount, NewLines;
  }

  lemma {:induction false} PrintedHeadersAre(hunks: seq<Hunk>, oldBefore: nat, newBefore: nat)
    ensures HeadersAre(HunkStart, PrintHeaders(PrintHeader, hunks, oldBefore, newBefore), hunks, newBefore)
    decreases hunks
  {
    hide HunkStart, PrintHeader, Pieces, NewLines, OldCount, KindOf, HeaderItem, PrintHeaders;
    if hunks != [] {
      var h, old', new' := hunks[0], oldBefore + |hunks[0].gap|, newBefore + |hunks[0].gap|;
      NextPrinted(PrintHeader, hunks, oldBefore, newBefore);
      HeaderIsItem(h, old', newBefore);
      PrintedHeadersAre(hunks[1..], old' + OldCount(h.lines), new' + |NewLines(h.lines)|);
    }
  }

  // The locator

  /** What the locator answers on a printed patch, with or without the newline after its last line, whatever
      characters the lines and headings hold. */
  lemma LocatorIsKinds(hunks: seq<Hunk>, patch: string)
    requires PrintsAs(hunks, patch)
    ensures FirstAddedLine(patch) == ScanKinds(KindsOf(Items(HunkStart, hunks, 0)), None)
  {
    hide HunkStart, PrintHeader, Pieces, PrintLine, Scan, ScanKinds, KindOf, NewLines;
    var headers, lines := PrintHeaders(PrintHeader, hunks, 0, 0), PrintHunks(hunks);
    PrintedHeadersAre(hunks, 0, 0);
    PatchKinds(HunkStart, headers, hunks, 0);
    SplitIsPieces(lines);
    ScanIsKinds(HunkStart, AllPieces(lines), None);
    if patch != Unlines(lines) {
      FinalNewline(patch);
      ScanIgnoresEmptyEnd(HunkStart, SplitLines(patch), None);
    }
  }

  /** On every printed patch, without any condition on its texts, the locator answers with the number of the first
      added line of the patched file, or None when nothing is added, if and only if the kinds of its pieces tell so. */
  lemma LocatorIsRightExactlyIf(hunks: seq<Hunk>, patch: string)
    requires PrintsAs(hunks, patch)
    ensures FirstAddedLine(patch) == Shift(TrueFirstAdded(NewFile(hunks)), 0)
            <==> Tells(Items(HunkStart, hunks, 0), Lost, 1, LinesBefore(hunks))
  {
    hide HunkStart, Items, Tells, ScanKinds, PrintsAs, TrueFirstAdded, NewFile;
    LocatorIsKinds(hunks, patch);
    TellsIff(Items(HunkStart, hunks, 0), Lost, 1, LinesBefore(hunks));
  }

  /** How many lines of the patched file come before the first added one. */
  function LinesBefore(hunks: seq<Hunk>): Option<int> {
    match TrueFirstAdded(NewFile(hunks)) case Some(n) => Some(n - 1) case None => None
  }
}
