/** The official review payload (src/adapters/renderers/pr_comment.py): preparation, the correlation marker and
    the trip through the tool input. */
module ReviewPayload {
  import opened Basics
  import opened Text

  const SIGNATURE := "Generated by Qaestro"
  const ATTRIBUTION := "---\n\U{1F916} *Generated by Qaestro*"
  const RIGHT := "RIGHT"

  datatype PayloadError = BadLine | BadSide | BadStartLine | BadStartSide

  datatype ReviewComment = ReviewComment(
    path: string, body: string, line: Option<int>, side: string, startLine: Option<int>, startSide: string)
  {
    predicate IsMapped() {
      Strip(path) != "" && line.Some?
    }
  }

  datatype ReviewPayload = ReviewPayload(
    repo: string, prNumber: int, headSha: string, body: string, event: string, comments: seq<ReviewComment>)

  /** `_with_attribution`, for any signature and attribution text. */
  function Signed(body: string, signature: string, attribution: string): string {
    var clean := Strip(body);
    if Contains(clean, signature) then clean
    else if clean == "" then attribution
    else clean + "\n\n" + attribution
  }

  function WithAttribution(body: string): string {
    Signed(body, SIGNATURE, ATTRIBUTION)
  }

  /** `_validated_review_comment`. */
  function CommentError(c: ReviewComment): Option<PayloadError> {
    if c.line.None? || c.line.value <= 0 then Some(BadLine)
    else if c.side != RIGHT then Some(BadSide)
    else if c.startLine.None? then None
    else if c.startLine.value <= 0 || c.startLine.value > c.line.value then Some(BadStartLine)
    else if c.startSide != "" && c.startSide != RIGHT then Some(BadStartSide)
    else None
  }

  /** What preparing a comment asks of it: whether it has a place, what is wrong with it, how it is signed. */
  datatype Rules = Rules(
    mapped: ReviewComment -> bool, error: ReviewComment -> Option<PayloadError>, sign: string -> string)
  {
    /** A comment that has been prepared. */
    predicate Prepared(c: ReviewComment) {
      mapped(c) && error(c).None? && sign(c.body) == c.body
    }

    predicate Unmapped(c: ReviewComment) {
      !mapped(c)
    }

    function WithSignature(c: ReviewComment): ReviewComment {
      c.(body := sign(c.body))
    }
  }

  function ReviewRules(): Rules {
    Rules((c: ReviewComment) => c.IsMapped(), CommentError, WithAttribution)
  }

  /** The mapped comments, validated and signed, in order; the first bad one raises. */
  function PrepareComments(r: Rules, cs: seq<ReviewComment>): Result<seq<ReviewComment>, PayloadError> {
    if cs == [] then Success([])
    else if !r.mapped(cs[0]) then PrepareComments(r, cs[1..])
    else match r.error(cs[0])
      case Some(e) => Failure(e)
      case None =>
        var rest :- PrepareComments(r, cs[1..]);
        Success([r.WithSignature(cs[0])] + rest)
  }

  /** `_append_unmapped_findings`. */
  function AppendUnmapped(body: string, cs: seq<ReviewComment>): string {
    var head := if Strip(body) != "" then [Strip(body), "", "### Unmapped inline findings"]
                else ["### Unmapped inline findings"];
    Join("\n", head + Map((c: ReviewComment) =>
      "- `" + (if Strip(c.path) != "" then Strip(c.path) else "unknown path") + "`: " + Strip(c.body), cs))
  }

  /** `prepared_for_submission`. */
  function Prepare(p: ReviewPayload): Result<ReviewPayload, PayloadError> {
    var mapped :- PrepareComments(ReviewRules(), p.comments);
    var unmapped := Filter(ReviewRules().Unmapped, p.comments);
    var body := if unmapped == [] then p.body else AppendUnmapped(p.body, unmapped);
    Success(p.(body := WithAttribution(body), event := "COMMENT", comments := mapped))
  }

  function CorrelationMarker(correlationId: string): string {
    "Correlation ID: `" + correlationId + "`"
  }

  /** Appends a marker unless the body has it. */
  function Marked(body: string, marker: string): string {
    if Contains(body, marker) then body
    else if Strip(body) != "" then Strip(body) + "\n\n" + marker
    else marker
  }

  /** `with_correlation_id`. */
  function WithCorrelationId(p: ReviewPayload, correlationId: string): ReviewPayload {
    p.(body := Marked(p.body, CorrelationMarker(correlationId)))
  }

  /** One comment of the tool input: the two start keys are present only with a start line. */
  datatype RawComment = RawComment(
    path: string, body: string, line: Option<int>, side: string, start: Option<(int, string)>)

  function ToRaw(c: ReviewComment): RawComment {
    RawComment(c.path, c.body, c.line, c.side,
               if c.startLine.Some? then Some((c.startLine.value, c.startSide)) else None)
  }

  /** `_review_comment_from_raw`. */
  function FromRaw(r: RawComment): ReviewComment {
    ReviewComment(r.path, r.body, r.line, if r.side == "" then RIGHT else r.side,
                  if r.start.Some? then Some(r.start.value.0) else None,
                  if r.start.Some? then r.start.value.1 else "")
  }

  /** The payload as the review tool reads it back from its input. */
  function ThroughTool(p: ReviewPayload): ReviewPayload {
    p.(event := if p.event == "" then "COMMENT" else p.event, comments := Map(FromRaw, Map(ToRaw, p.comments)))
  }

  /** One comment as it goes over the wire (`to_client_input`, `_review_comment_payload`). */
  datatype WireComment = WireComment(
    path: string, body: string, line: Option<int>, side: string, start: Option<(int, string)>)

  function Wire(c: ReviewComment): WireComment {
    var side := if c.side == "" then RIGHT else c.side;
    WireComment(c.path, WithAttribution(c.body), c.line, side,
                if c.startLine.Some? then Some((c.startLine.value, if c.startSide == "" then side else c.startSide))
                else None)
  }

  // Signing is idempotent

  lemma TrimmedJoin(a: string, b: string)
    requires a != "" && b != "" && Trimmed(a) && Trimmed(b)
    ensures Trimmed(a + "\n\n" + b) && a + "\n\n" + b != ""
  {
    var s := a + "\n\n" + b;
    assert s[0] == a[0] && s[|s| - 1] == b[|b| - 1];
  }

  lemma SignedIsSigned(body: string, signature: string, attribution: string)
    requires attribution != "" && Trimmed(attribution) && Contains(attribution, signature) && signature != ""
    ensures var s := Signed(body, signature, attribution);
            s != "" && Trimmed(s) && Contains(s, signature)
  {
    var clean := Strip(body);
    TrimmedIsFixed(body);
    if Contains(clean, signature) {
    } else if clean != "" {
      TrimmedJoin(clean, attribution);
      ContainsPrefixed(clean + "\n\n", attribution, signature);
    }
  }

  lemma SignedIsFixed(s: string, signature: string, attribution: string)
    requires Trimmed(s) && Contains(s, signature)
    ensures Signed(s, signature, attribution) == s
  {
    TrimmedIsFixed(s);
  }

  lemma AttributionCarriesSignature()
    ensures ATTRIBUTION != "" && Trimmed(ATTRIBUTION) && Contains(ATTRIBUTION, SIGNATURE) && SIGNATURE != ""
  {
    var a := "---\n\U{1F916} *";
    assert ATTRIBUTION == a + SIGNATURE + "*";
    ContainsAround(a, SIGNATURE, "*");
  }

  /** Signing a valid mapped comment prepares it. */
  ghost predicate SigningIsSound(r: Rules) {
    forall c: ReviewComment :: r.mapped(c) && r.error(c).None? ==> r.Prepared(r.WithSignature(c))
  }

  /** Signing twice is signing once. */
  lemma SigningIsIdempotent(body: string)
    ensures WithAttribution(WithAttribution(body)) == WithAttribution(body)
  {
    AttributionCarriesSignature();
    SignedIsSigned(body, SIGNATURE, ATTRIBUTION);
    SignedIsFixed(WithAttribution(body), SIGNATURE, ATTRIBUTION);
  }

  lemma ErrorIgnoresBody(c: ReviewComment, body: string)
    ensures CommentError(c.(body := body)) == CommentError(c)
  {
  }

  lemma ReviewSigningIsSound()
    ensures SigningIsSound(ReviewRules())
  {
    var r := ReviewRules();
    forall c: ReviewComment | r.mapped(c) && r.error(c).None? ensures r.Prepared(r.WithSignature(c)) {
      SigningIsIdempotent(c.body);
      ErrorIgnoresBody(c, WithAttribution(c.body));
      assert r.WithSignature(c).path == c.path && r.WithSignature(c).line == c.line;
    }
  }

  lemma {:induction false} PrepareGivesPrepared(r: Rules, cs: seq<ReviewComment>)
    requires SigningIsSound(r) && PrepareComments(r, cs).Success?
    ensures forall c <- PrepareComments(r, cs).value :: r.Prepared(c)
  {
    if cs != [] {
      PrepareGivesPrepared(r, cs[1..]);
    }
  }

  lemma {:induction false} PreparedIsFixed(r: Rules, cs: seq<ReviewComment>)
    requires forall c <- cs :: r.Prepared(c)
    ensures PrepareComments(r, cs) == Success(cs)
    ensures Filter(r.Unmapped, cs) == []
  {
    if cs != [] {
      assert r.Prepared(cs[0]);
      PreparedIsFixed(r, cs[1..]);
      assert cs == [cs[0]] + cs[1..];
      assert r.WithSignature(cs[0]) == cs[0];
    }
  }

  /** The tool input only loses a start side that has no start line. */
  lemma TripKeepsPrepared(c: ReviewComment)
    requires ReviewRules().Prepared(c)
    ensures c.startLine.Some? ==> FromRaw(ToRaw(c)) == c
    ensures ReviewRules().Prepared(FromRaw(ToRaw(c))) && Wire(FromRaw(ToRaw(c))) == Wire(c)
  {
    assert CommentError(c).None? && c.side == RIGHT;
  }

  lemma MarkedIsTrimmed(body: string, marker: string, signature: string)
    requires body != "" && Trimmed(body) && Contains(body, signature) && marker != "" && Trimmed(marker)
    ensures var m := Marked(body, marker);
            && m != "" && Trimmed(m) && Contains(m, signature) && Contains(m, marker)
            && (Contains(body, marker) ==> m == body)
  {
    TrimmedIsFixed(body);
    if !Contains(body, marker) {
      TrimmedJoin(body, marker);
      ContainsSuffixed(body, "\n\n" + marker, signature);
      assert body + "\n\n" + marker == body + ("\n\n" + marker);
      ContainsAround(body + "\n\n", marker, "");
      assert body + "\n\n" + marker + "" == body + "\n\n" + marker;
    }
  }

  lemma MarkerIsTrimmed(correlationId: string)
    ensures CorrelationMarker(correlationId) != "" && Trimmed(CorrelationMarker(correlationId))
    ensures Contains(CorrelationMarker(correlationId), correlationId)
  {
    var m := CorrelationMarker(correlationId);
    assert m[0] == 'C' && m[|m| - 1] == '`';
    ContainsAround("Correlation ID: `", correlationId, "`");
  }

  lemma ContainsTransitive(s: string, m: string, n: string)
    requires Contains(s, m) && Contains(m, n)
    ensures Contains(s, n)
  {
    var i :| 0 <= i <= |s| && OccursAt(s, m, i);
    var j :| 0 <= j <= |m| && OccursAt(m, n, j);
    forall k | 0 <= k < |n| ensures s[i + j + k] == n[k] {
      assert s[i + j + k] == s[i..i + |m|][j + k] == m[j..j + |n|][k];
    }
    assert s[i + j..i + j + |n|] == n;
    assert OccursAt(s, n, i + j);
  }

  /** What the poster hands to the create tool. */
  function ForSubmission(p: ReviewPayload, correlationId: string): Result<ReviewPayload, PayloadError> {
    var prepared :- Prepare(p);
    Success(WithCorrelationId(prepared, correlationId))
  }

  /** The body of a submitted review: trimmed, signed and carrying the correlation marker. */
  lemma SubmittedBody(p: ReviewPayload, correlationId: string)
    requires ForSubmission(p, correlationId).Success?
    ensures var body := ForSubmission(p, correlationId).value.body;
            && body != "" && Strip(body) == body && WithAttribution(body) == body
            && Contains(body, CorrelationMarker(correlationId)) && Contains(body, correlationId)
  {
    var prepared := Prepare(p).value;
    var marker := CorrelationMarker(correlationId);
    var unmapped := Filter(ReviewRules().Unmapped, p.comments);
    AttributionCarriesSignature();
    SignedIsSigned(if unmapped == [] then p.body else AppendUnmapped(p.body, unmapped), SIGNATURE, ATTRIBUTION);
    MarkerIsTrimmed(correlationId);
    MarkedIsTrimmed(prepared.body, marker, SIGNATURE);
    var body := Marked(prepared.body, marker);
    TrimmedIsFixed(body);
    SignedIsFixed(body, SIGNATURE, ATTRIBUTION);
    ContainsTransitive(body, marker, correlationId);
  }

  /** Comments through the tool input and prepared again. */
  lemma CommentsSurvive(cs: seq<ReviewComment>)
    requires forall c <- cs :: ReviewRules().Prepared(c)
    ensures var back := Map(FromRaw, Map(ToRaw, cs));
            && |back| == |cs|
            && PrepareComments(ReviewRules(), back) == Success(back)
            && Filter(ReviewRules().Unmapped, back) == []
            && (forall i :: 0 <= i < |cs| ==>
                  && Wire(back[i]) == Wire(cs[i])
                  && (cs[i].startLine.Some? ==> back[i] == cs[i]))
  {
    var back := Map(FromRaw, Map(ToRaw, cs));
    forall i | 0 <= i < |cs|
      ensures ReviewRules().Prepared(back[i]) && Wire(back[i]) == Wire(cs[i])
      ensures cs[i].startLine.Some? ==> back[i] == cs[i]
    {
      assert cs[i] in cs && back[i] == FromRaw(ToRaw(cs[i]));
      TripKeepsPrepared(cs[i]);
    }
    PreparedIsFixed(ReviewRules(), back);
  }

  /** Preparing a review, marking it, sending it through the tool input and preparing it again changes nothing:
      same head, body, event and wire comments; the marker survives the trimming before the request. */
  lemma RepreparationIsNoOp(p: ReviewPayload, correlationId: string)
    requires ForSubmission(p, correlationId).Success?
    ensures var q := ForSubmission(p, correlationId).value;
            var again := Prepare(ThroughTool(q));
            && again == Success(ThroughTool(q))
            && again.value.body == q.body && again.value.event == q.event == "COMMENT"
            && again.value.headSha == q.headSha && |again.value.comments| == |q.comments|
            && (forall i :: 0 <= i < |q.comments| ==>
                  && Wire(again.value.comments[i]) == Wire(q.comments[i])
                  && (q.comments[i].startLine.Some? ==> again.value.comments[i] == q.comments[i]))
            && Contains(Strip(again.value.body), CorrelationMarker(correlationId))
  {
    SubmittedBody(p, correlationId);
    ReviewSigningIsSound();
    PrepareGivesPrepared(ReviewRules(), p.comments);
    CommentsSurvive(ForSubmission(p, correlationId).value.comments);
  }
}
