/** What a submitted review says: nothing of the text or of the comments that were to be posted is lost. */
module ReviewText {
  import opened Basics
  import opened Text
  import opened ReviewPayload

  /** A comment GitHub can show at a line. */
  predicate Placed(c: ReviewComment) {
    Strip(c.path) != "" && c.line.Some?
  }

  /** What GitHub accepts of one that has a place. */
  predicate Acceptable(c: ReviewComment) {
    && c.line.Some? && c.line.value >= 1 && c.side == "RIGHT"
    && (c.startLine.Some? ==>
          1 <= c.startLine.value <= c.line.value && (c.startSide == "" || c.startSide == "RIGHT"))
  }

  /** How a comment without a place is told: its path, if it has one, and its text. */
  function Finding(c: ReviewComment): string {
    "- `" + (if Strip(c.path) != "" then Strip(c.path) else "unknown path") + "`:"
    + (if Strip(c.body) != "" then " " + Strip(c.body) else "")
  }

  // Signing and marking keep what is there

  lemma SignedKeeps(body: string, signature: string, attribution: string, t: string)
    requires t != "" && Trimmed(t)
    ensures t <= Strip(body) ==> t <= Signed(body, signature, attribution)
    ensures Contains(Strip(body), t) ==> Contains(Signed(body, signature, attribution), t)
  {
    var clean := Strip(body);
    if Contains(clean, t) {
      ContainsSuffixed(clean, "\n\n" + attribution, t);
      assert clean + "\n\n" + attribution == clean + ("\n\n" + attribution);
      NothingInEmpty(t);
    }
    assert clean <= clean + "\n\n" + attribution;
  }

  lemma NothingInEmpty(t: string)
    requires t != ""
    ensures !Contains("", t)
  {
  }

  lemma MarkedKeeps(body: string, marker: string, t: string)
    requires t != "" && Trimmed(t)
    ensures t <= body ==> t <= Marked(body, marker)
    ensures Contains(body, t) ==> Contains(Marked(body, marker), t)
  {
    hide Strip;
    StripKeeps(body, t);
    var clean := Strip(body);
    if Contains(clean, t) {
      ContainsSuffixed(clean, "\n\n" + marker, t);
      assert clean + "\n\n" + marker == clean + ("\n\n" + marker);
      NothingInEmpty(t);
    }
    assert clean <= clean + "\n\n" + marker;
  }

  lemma {:induction false} JoinHas(sep: string, parts: seq<string>, i: nat)
    requires i < |parts|
    ensures Contains(Join(sep, parts), parts[i])
    ensures parts[0] <= Join(sep, parts)
  {
    if |parts| == 1 {
      ContainsAround("", parts[0], "");
      assert "" + parts[0] + "" == parts[0];
    } else {
      var rest := Join(sep, parts[1..]);
      assert parts[0] + sep + rest == parts[0] + (sep + rest);
      if i == 0 {
        ContainsAround("", parts[0], sep + rest);
        assert "" + parts[0] + (sep + rest) == parts[0] + (sep + rest);
      } else {
        JoinHas(sep, parts[1..], i - 1);
        ContainsPrefixed(parts[0] + sep, rest, parts[i]);
      }
    }
  }

  lemma FindingIsTrimmed(c: ReviewComment)
    ensures Finding(c) != "" && Trimmed(Finding(c))
  {
    TrimmedIsFixed(c.body);
    var f := Finding(c);
    hide Strip;
    assert f[0] == '-';
    if Strip(c.body) != "" {
      assert f[|f| - 1] == Strip(c.body)[|Strip(c.body)| - 1];
    } else {
      assert f[|f| - 1] == ':';
    }
  }

  /** The appended list starts with the text and names every finding. */
  lemma AppendedKeeps(body: string, cs: seq<ReviewComment>, i: nat)
    requires i < |cs|
    ensures Strip(body) != "" ==> Strip(body) <= AppendUnmapped(body, cs)
    ensures Contains(AppendUnmapped(body, cs), Finding(cs[i]))
  {
    hide Strip;
    var line := (c: ReviewComment) =>
      "- `" + (if Strip(c.path) != "" then Strip(c.path) else "unknown path") + "`: " + Strip(c.body);
    var head := if Strip(body) != "" then [Strip(body), "", "### Unmapped inline findings"]
                else ["### Unmapped inline findings"];
    var parts := head + Map(line, cs);
    assert AppendUnmapped(body, cs) == Join("\n", parts);
    JoinHas("\n", parts, |head| + i);
    assert parts[|head| + i] == line(cs[i]);
    LineHasFinding(cs[i]);
    ContainsTransitive(Join("\n", parts), line(cs[i]), Finding(cs[i]));
  }

  lemma LineHasFinding(c: ReviewComment)
    ensures Contains("- `" + (if Strip(c.path) != "" then Strip(c.path) else "unknown path") + "`: " + Strip(c.body),
                     Finding(c))
  {
    hide Strip;
    var x := "- `" + (if Strip(c.path) != "" then Strip(c.path) else "unknown path");
    Spaced(x, Strip(c.body));
    var f, b := Finding(c), if Strip(c.body) != "" then "" else " ";
    assert f == if Strip(c.body) != "" then x + "`:" + (" " + Strip(c.body)) else x + "`:" + "";
    hide Finding;
    ContainsAround("", f, b);
    var t := Strip(c.body);
    assert x + "`: " + t == "" + f + b by {
      assert t != "" ==> b == "" && f + b == f;
      assert "" + f == f;
    }
  }

  lemma Spaced(x: string, t: string)
    ensures x + "`: " + t == if t != "" then x + "`:" + (" " + t) else x + "`:" + "" + " "
  {
    assert "`: " == "`:" + " ";
    assert x + ("`:" + " ") + t == x + "`:" + (" " + t);
  }

  // The submitted body

  /** The body of the submitted review starts with the text it was given and tells every comment without a place. */
  lemma BodyIsKept(p: ReviewPayload, correlationId: string)
    requires ForSubmission(p, correlationId).Success?
    ensures var q := ForSubmission(p, correlationId).value;
            && (q.repo, q.prNumber, q.headSha, q.event) == (p.repo, p.prNumber, p.headSha, "COMMENT")
            && Strip(p.body) <= q.body
            && (forall c <- p.comments :: !Placed(c) ==> Contains(q.body, Finding(c)))
  {
    var q := ForSubmission(p, correlationId).value;
    var unmapped := Filter(ReviewRules().Unmapped, p.comments);
    var body := if unmapped == [] then p.body else AppendUnmapped(p.body, unmapped);
    assert q.body == Marked(Signed(body, SIGNATURE, ATTRIBUTION), CorrelationMarker(correlationId));
    TrimmedIsFixed(p.body);
    hide ForSubmission, Strip, AppendUnmapped, Marked, Signed, Finding;
    if Strip(p.body) != "" {
      if unmapped != [] {
        AppendedKeeps(p.body, unmapped, 0);
        StripKeeps(body, Strip(p.body));
      }
      TextIsKept(body, Strip(p.body), CorrelationMarker(correlationId));
    }
    forall c <- p.comments | !Placed(c) ensures Contains(q.body, Finding(c)) {
      assert ReviewRules().Unmapped(c) && c in unmapped;
      var i :| 0 <= i < |unmapped| && unmapped[i] == c;
      AppendedKeeps(p.body, unmapped, i);
      FindingIsTrimmed(c);
      StripKeeps(body, Finding(c));
      TextIsKept(body, Finding(c), CorrelationMarker(correlationId));
    }
  }

  lemma TextIsKept(body: string, t: string, marker: string)
    requires t != "" && Trimmed(t)
    ensures t <= Strip(body) ==> t <= Marked(Signed(body, SIGNATURE, ATTRIBUTION), marker)
    ensures Contains(Strip(body), t) ==> Contains(Marked(Signed(body, SIGNATURE, ATTRIBUTION), marker), t)
  {
    hide Strip, Marked, Signed;
    SignedKeeps(body, SIGNATURE, ATTRIBUTION, t);
    MarkedKeeps(Signed(body, SIGNATURE, ATTRIBUTION), marker, t);
  }

  /** A text that neither names the author nor the run is followed by both, and nothing else is added. */
  lemma PlainBody(p: ReviewPayload, correlationId: string)
    requires ForSubmission(p, correlationId).Success? && Strip(p.body) != ""
    requires forall c <- p.comments :: Placed(c)
    requires !Contains(Strip(p.body), "Generated by Qaestro")
    requires !Contains(Strip(p.body) + "\n\n" + "---\n\U{1F916} *Generated by Qaestro*",
                       "Correlation ID: `" + correlationId + "`")
    ensures ForSubmission(p, correlationId).value.body
         == Strip(p.body) + "\n\n" + "---\n\U{1F916} *Generated by Qaestro*" + "\n\n"
            + "Correlation ID: `" + correlationId + "`"
  {
    var attribution := "---\n\U{1F916} *Generated by Qaestro*";
    assert Filter(ReviewRules().Unmapped, p.comments) == [] by {
      forall c <- p.comments ensures !ReviewRules().Unmapped(c) {
        assert Placed(c);
      }
      NoneLeft(ReviewRules().Unmapped, p.comments);
    }
    TrimmedIsFixed(p.body);
    AttributionCarriesSignature();
    hide Strip, Contains;
    TrimmedJoin(Strip(p.body), attribution);
    TrimmedIsFixed(Strip(p.body) + "\n\n" + attribution);
  }

  lemma NoneLeft<T>(p: T -> bool, xs: seq<T>)
    requires forall x <- xs :: !p(x)
    ensures Filter(p, xs) == []
  {
    if Filter(p, xs) != [] {
      assert Filter(p, xs)[0] in Filter(p, xs);
    }
  }

  // The submitted comments

  /** The same place, and a text that starts with the original. */
  ghost predicate Shows(q: ReviewComment, c: ReviewComment) {
    && (q.path, q.line, q.side) == (c.path, c.line, c.side)
    && (q.startLine, q.startSide) == (c.startLine, c.startSide)
    && Strip(c.body) <= q.body && Contains(q.body, "Generated by Qaestro")
  }

  lemma SignedShows(c: ReviewComment)
    ensures Shows(c.(body := WithAttribution(c.body)), c)
  {
    AttributionCarriesSignature();
    SignedIsSigned(c.body, SIGNATURE, ATTRIBUTION);
    TrimmedIsFixed(c.body);
    hide Strip, Signed, Contains;
    if Strip(c.body) != "" {
      SignedKeeps(c.body, SIGNATURE, ATTRIBUTION, Strip(c.body));
    }
  }

  /** Preparing succeeds exactly if every mapped comment is without error, and signs the mapped ones in order. */
  lemma {:induction false} PreparedAre(r: Rules, cs: seq<ReviewComment>)
    ensures PrepareComments(r, cs).Success? <==> forall c <- cs :: r.mapped(c) ==> r.error(c).None?
    ensures PrepareComments(r, cs).Success? ==>
              var ms := Filter(r.mapped, cs);
              && |PrepareComments(r, cs).value| == |ms|
              && forall i :: 0 <= i < |ms| ==> PrepareComments(r, cs).value[i] == r.WithSignature(ms[i])
  {
    if cs != [] {
      PreparedAre(r, cs[1..]);
      assert cs == [cs[0]] + cs[1..];
    }
  }

  lemma {:induction false} SameFilter<T>(p: T -> bool, q: T -> bool, xs: seq<T>)
    requires forall x <- xs :: p(x) <==> q(x)
    ensures Filter(p, xs) == Filter(q, xs)
  {
    if xs != [] {
      SameFilter(p, q, xs[1..]);
    }
  }

  /** The submitted comments are those with a place, in order and none missing, each where it was and with its text. */
  lemma CommentsAreKept(p: ReviewPayload, correlationId: string)
    requires ForSubmission(p, correlationId).Success?
    ensures var qs, cs := ForSubmission(p, correlationId).value.comments, Filter(Placed, p.comments);
            |qs| == |cs| && forall i :: 0 <= i < |cs| ==> Shows(qs[i], cs[i])
  {
    var r := ReviewRules();
    var qs := ForSubmission(p, correlationId).value.comments;
    assert PrepareComments(r, p.comments) == Success(qs);
    PreparedAre(r, p.comments);
    SameFilter(Placed, r.mapped, p.comments);
    hide ForSubmission, Shows, Placed, WithAttribution;
    var cs := Filter(r.mapped, p.comments);
    forall i | 0 <= i < |cs| ensures Shows(qs[i], cs[i]) {
      SignedShows(cs[i]);
      assert qs[i] == r.WithSignature(cs[i]) == cs[i].(body := WithAttribution(cs[i].body));
    }
  }

  /** Whatever is sent over the wire is signed, with the comment's text in front. */
  lemma WireIsSigned(c: ReviewComment)
    ensures Strip(c.body) <= Wire(c).body && Contains(Wire(c).body, "Generated by Qaestro")
  {
    SignedShows(c);
  }

  /** What goes over the wire for a comment that has been prepared: itself, on the right side. */
  lemma WireOfPrepared(c: ReviewComment)
    requires ReviewRules().Prepared(c)
    ensures var w := Wire(c);
            && (w.path, w.body, w.line, w.side) == (c.path, c.body, c.line, "RIGHT")
            && w.start == (if c.startLine.Some? then Some((c.startLine.value, "RIGHT")) else None)
  {
    hide Signed, Strip;
  }

  /** A review is submitted exactly if GitHub accepts every comment that has a place. */
  lemma SubmittedIff(p: ReviewPayload, correlationId: string)
    ensures ForSubmission(p, correlationId).Success? <==> forall c <- p.comments :: Placed(c) ==> Acceptable(c)
  {
    var r := ReviewRules();
    PreparedAre(r, p.comments);
    hide Strip;
    forall c <- p.comments ensures r.mapped(c) <==> Placed(c) {
    }
    forall c <- p.comments | Placed(c) ensures r.error(c).None? <==> Acceptable(c) {
    }
  }
}
