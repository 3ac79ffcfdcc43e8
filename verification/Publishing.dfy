/** Publishing a summary comment and an official review (src/runtime/orchestrator/tool_output.py with
    src/runtime/tools/github.py): check, then write, under failures, retries and other users' activity. */
module Publishing {
  import opened Basics
  import opened Text
  import opened ReviewPayload

  /** Listings walk at most 30 pages of 100 items. */
  const LIST_CAP := 3000

  /** `ours` marks what the poster created, as opposed to other users. */
  datatype Comment = Comment(body: string, ours: bool)

  datatype Review = Review(body: string, commitId: string, ours: bool)

  /** One pull request on GitHub; comments and reviews in creation order. */
  datatype GitHub = GitHub(head: string, comments: seq<Comment>, reviews: seq<Review>)

  /** What others do at any moment. */
  datatype Env = Push(head: string) | OtherComment(body: string) | OtherReview(body: string, commitId: string)

  function Happens(g: GitHub, e: Env): GitHub {
    match e
    case Push(head) => g.(head := head)
    case OtherComment(body) => g.(comments := g.comments + [Comment(body, false)])
    case OtherReview(body, commitId) => g.(reviews := g.reviews + [Review(body, commitId, false)])
  }

  function AllHappen(g: GitHub, es: seq<Env>): GitHub
    decreases es
  {
    if es == [] then g else AllHappen(Happens(g, es[0]), es[1..])
  }

  /** A tool call works, fails before it has an effect, or has its effect and then fails. */
  datatype Fault = Works | FailsBefore | FailsAfter

  function Listed<T>(items: seq<T>): seq<T> {
    if |items| <= LIST_CAP then items else items[..LIST_CAP]
  }

  // Tools

  function FirstWithMarker(comments: seq<Comment>, marker: string): (r: Option<nat>)
    ensures r.Some? ==> r.value < |comments| && Contains(comments[r.value].body, marker)
    ensures r.Some? ==> forall k :: 0 <= k < r.value ==> !Contains(comments[k].body, marker)
    ensures r.None? ==> forall c <- comments :: !Contains(c.body, marker)
  {
    if comments == [] then None
    else if Contains(comments[0].body, marker) then Some(0)
    else match FirstWithMarker(comments[1..], marker) case Some(i) => Some(i + 1) case None => None
  }

  /** `_persisted_comment_body`. */
  function PersistedBody(body: string, marker: string): string {
    if marker == "" || Contains(body, marker) then body
    else if body == "" then marker
    else marker + "\n\n" + body
  }

  lemma PersistedBodyHasMarker(body: string, marker: string)
    requires marker != ""
    ensures Contains(PersistedBody(body, marker), marker)
  {
    ContainsAround("", marker, "");
    assert "" + marker + "" == marker;
    ContainsAround("", marker, "\n\n" + body);
    assert "" + marker + ("\n\n" + body) == marker + "\n\n" + body;
  }

  /** The body itself is kept, after the marker if that had to be added; persisting twice changes nothing. */
  lemma PersistedBodyKeepsBody(body: string, marker: string)
    ensures var p := PersistedBody(body, marker);
            && |body| <= |p| && p[|p| - |body|..] == body
            && (Contains(body, marker) ==> p == body)
            && PersistedBody(p, marker) == p
  {
    hide Contains;
    if marker != "" {
      PersistedBodyHasMarker(body, marker);
    }
  }

  /** The client refuses a blank body, which a persisted one never is when the marker is not blank. */
  lemma PersistedBodyIsNotBlank(body: string, marker: string)
    requires Strip(marker) != ""
    ensures Strip(PersistedBody(body, marker)) != ""
  {
    var p := PersistedBody(body, marker);
    PersistedBodyHasMarker(body, marker);
    var i :| 0 <= i <= |p| && OccursAt(p, marker, i);
    StripIsEmptyIff(p);
    StripIsEmptyIff(marker);
    assert forall k :: 0 <= k < |marker| ==> marker[k] == p[i..i + |marker|][k] == p[i + k];
  }

  /** `_create_or_update_comment`: the first listed comment with the marker is updated, else one is created. */
  function CreateOrUpdate(g: GitHub, body: string, marker: string): GitHub {
    var persisted := PersistedBody(body, marker);
    var found := if marker == "" then None else FirstWithMarker(Listed(g.comments), marker);
    match found
    case Some(i) => g.(comments := g.comments[i := g.comments[i].(body := persisted)])
    case None => g.(comments := g.comments + [Comment(persisted, true)])
  }

  predicate Matches(r: Review, head: string, correlationId: string) {
    r.commitId == head && Contains(r.body, correlationId)
  }

  /** `_find_existing_review` over the listed reviews. */
  predicate FindExisting(g: GitHub, head: string, correlationId: string) {
    exists r <- Listed(g.reviews) :: Matches(r, head, correlationId)
  }

  /** What creating a review comes to: not asked for, refused, or one more review. */
  datatype Creation = NotNeeded | Refused | Adds(review: Review)

  /** The client's checks: it trims the body, and refuses an empty review and a blank commit. */
  function CreationOfPrepared(prepared: Result<ReviewPayload, PayloadError>): Creation {
    match prepared
    case Failure(_) => Refused
    case Success(p) =>
      if (Strip(p.body) == "" && p.comments == []) || Strip(p.headSha) == "" then Refused
      else Adds(Review(Strip(p.body), p.headSha, true))
  }

  /** `_create_pull_request_review`: prepares once more what the tool input holds. */
  function CreationOf(q: ReviewPayload): Creation {
    CreationOfPrepared(Prepare(ThroughTool(q)))
  }

  /** `owner/repo` and a positive number; every tool raises otherwise. */
  predicate TargetOk(repo: string, prNumber: int) {
    var owner := Before(repo, '/');
    && prNumber > 0 && owner != "" && |owner| + 1 < |repo| && '/' !in repo[|owner| + 1..]
  }

  function CommentMarker(repo: string, prNumber: int): string {
    "Repository: `" + repo + "`\nPull request: `#"
    + (if prNumber < 0 then "-" + Decimal(-prNumber) else Decimal(prNumber)) + "`"
  }

  /** Where output goes: a pull request and the correlation id of the run. */
  datatype Site = Site(repo: string, prNumber: int, correlationId: string)
  {
    predicate Ok() {
      TargetOk(repo, prNumber)
    }

    function Marker(): string {
      Strip(CommentMarker(repo, prNumber))
    }
  }

  /** A target is an owner, one slash, a name and a positive number. */
  lemma TargetOkIff(repo: string, prNumber: int)
    ensures TargetOk(repo, prNumber)
            <==> prNumber >= 1 && exists owner, name ::
                   && repo == owner + "/" + name && owner != "" && name != "" && '/' !in owner && '/' !in name
  {
    if TargetOk(repo, prNumber) {
      var owner := Before(repo, '/');
      BeforeEnds(repo, '/');
      var name := repo[|owner| + 1..];
      assert repo == owner + "/" + name && name != "" && '/' !in name;
    }
    if owner, name :| repo == owner + "/" + name && owner != "" && name != "" && '/' !in owner && '/' !in name {
      BeforeIs(owner, '/', "/" + name);
      assert repo == owner + ("/" + name);
      assert repo[|owner| + 1..] == name;
    }
  }

  /** The summary comment names its pull request in two lines. */
  lemma MarkerReads(site: Site, number: nat)
    requires site.prNumber == number
    ensures site.Marker() == "Repository: `" + site.repo + "`" + "\n" + "Pull request: `#" + Decimal(number) + "`"
  {
    var m := CommentMarker(site.repo, site.prNumber);
    assert m[0] == 'R' && m[|m| - 1] == '`';
    TrimmedIsFixed(m);
    assert "`\nPull request: `#" == "`" + "\n" + "Pull request: `#";
  }

  lemma MarkerIsNotBlank(site: Site)
    ensures site.Marker() != "" && Strip(site.Marker()) != ""
  {
    var m := CommentMarker(site.repo, site.prNumber);
    assert m[0] == 'R' && m[|m| - 1] == '`';
    TrimmedIsFixed(m);
  }

  /** How each tool call of an attempt goes, and what others do between the calls. */
  datatype Plan = Plan(
    view: Fault, afterView: seq<Env>, list: Fault, afterList: seq<Env>,
    comment: Fault, afterComment: seq<Env>, create: Fault)

  datatype Outcome = Posted | StaleHead | ToolFailed | BadPayload

  /** What the preflight finds: a review is already there, is missing, or posting must stop. */
  datatype Preflight = Existing | Missing | Stop(outcome: Outcome)

  /** `_preflight_review`: the head must be the reviewed one; then the listed reviews are searched. */
  function PreflightReview(g: GitHub, ok: bool, head: string, correlationId: string, plan: Plan): (GitHub, Preflight) {
    if !ok || plan.view != Works then (g, Stop(ToolFailed))
    else if g.head != head then (g, Stop(StaleHead))
    else
      var g1 := AllHappen(g, plan.afterView);
      if plan.list != Works then (g1, Stop(ToolFailed))
      else (AllHappen(g1, plan.afterList), if FindExisting(g1, head, correlationId) then Existing else Missing)
  }

  /** `_create_review`, when asked for. */
  function CreateReview(g: GitHub, creation: Creation, fault: Fault): (GitHub, Outcome) {
    match creation
    case NotNeeded => (g, Posted)
    case Refused => (g, ToolFailed)
    case Adds(r) =>
      if fault == FailsBefore then (g, ToolFailed)
      else (g.(reviews := g.reviews + [r]), if fault == Works then Posted else ToolFailed)
  }

  /** The comment call and then the review creation. */
  function Write(g: GitHub, ok: bool, marker: string, body: string, creation: Creation, plan: Plan): (GitHub, Outcome) {
    if !ok || plan.comment == FailsBefore then (g, ToolFailed) else
      var g1 := CreateOrUpdate(g, body, marker);
      if plan.comment == FailsAfter then (g1, ToolFailed)
      else CreateReview(AllHappen(g1, plan.afterComment), creation, plan.create)
  }

  /** `post_outputs` once the review is prepared: preflight, comment, review. */
  function AttemptReview(g: GitHub, ok: bool, marker: string, head: string, correlationId: string, body: string,
                         creation: Creation, plan: Plan): (GitHub, Outcome) {
    match PreflightReview(g, ok, head, correlationId, plan)
    case (g1, Stop(o)) => (g1, o)
    case (g1, Existing) => Write(g1, ok, marker, body, NotNeeded, plan)
    case (g1, Missing) => Write(g1, ok, marker, body, creation, plan)
  }

  /** `post_outputs`: the summary comment, and the review if there is one. */
  function Attempt(g: GitHub, site: Site, body: string, review: Option<ReviewPayload>, plan: Plan): (GitHub, Outcome) {
    if review.None? then Write(g, site.Ok(), site.Marker(), body, NotNeeded, plan) else
      match ForSubmission(review.value, site.correlationId)
      case Failure(_) => (g, BadPayload)
      case Success(q) =>
        AttemptReview(g, site.Ok(), site.Marker(), q.headSha, site.correlationId, body, CreationOf(q), plan)
  }

  /** `post_review`. */
  function AttemptReviewOnly(g: GitHub, site: Site, review: ReviewPayload, plan: Plan): (GitHub, Outcome) {
    match ForSubmission(review, site.correlationId)
    case Failure(_) => (g, BadPayload)
    case Success(q) =>
      match PreflightReview(g, site.Ok(), q.headSha, site.correlationId, plan)
      case (g1, Stop(o)) => (g1, o)
      case (g1, Existing) => (g1, Posted)
      case (g1, Missing) => CreateReview(g1, CreationOf(q), plan.create)
  }

  // The poster object

  class GitHubTools {
    var g: GitHub

    constructor (g: GitHub)
      ensures this.g == g
    {
      this.g := g;
    }

    method Others(es: seq<Env>)
      modifies this
      ensures g == AllHappen(old(g), es)
    {
      g := AllHappen(g, es);
    }

    method ViewHead(ok: bool, fault: Fault) returns (r: Option<string>)
      ensures r == if ok && fault == Works then Some(g.head) else None
    {
      r := if ok && fault == Works then Some(g.head) else None;
    }

    method ListReviews(ok: bool, fault: Fault) returns (r: Option<seq<Review>>)
      ensures r == if ok && fault == Works then Some(Listed(g.reviews)) else None
    {
      r := if ok && fault == Works then Some(Listed(g.reviews)) else None;
    }

    method CommentCreateOrUpdate(ok: bool, body: string, marker: string, fault: Fault) returns (done: bool)
      modifies this
      ensures g == if ok && fault != FailsBefore && Strip(PersistedBody(body, marker)) != ""
                   then CreateOrUpdate(old(g), body, marker) else old(g)
      ensures done <==> ok && fault == Works && Strip(PersistedBody(body, marker)) != ""
    {
      hide Contains, PersistedBody, Strip, FirstWithMarker;
      if ok && fault != FailsBefore {
        var persisted := PersistedBody(body, marker);
        var comments := Listed(g.comments);
        var k := 0;
        while k < |comments|
          invariant 0 <= k <= |comments| && comments == Listed(g.comments) && g == old(g)
          invariant marker != "" ==> forall j :: 0 <= j < k ==> !Contains(comments[j].body, marker)
        {
          if marker != "" && Contains(comments[k].body, marker) {
            assert FirstWithMarker(comments, marker) == Some(k);
            if Strip(persisted) == "" {
              return false;
            }
            g := g.(comments := g.comments[k := g.comments[k].(body := persisted)]);
            return fault == Works;
          }
          k := k + 1;
        }
        assert marker != "" ==> FirstWithMarker(comments, marker).None?;
        if Strip(persisted) == "" {
          return false;
        }
        g := g.(comments := g.comments + [Comment(persisted, true)]);
        return fault == Works;
      }
      return false;
    }

    method ReviewCreate(ok: bool, q: ReviewPayload, fault: Fault) returns (done: bool)
      modifies this
      ensures (g, if done then Posted else ToolFailed)
           == if ok then CreateReview(old(g), CreationOf(q), fault) else (old(g), ToolFailed)
    {
      if !ok {
        return false;
      }
      done := SubmitPrepared(Prepare(ThroughTool(q)), fault);
    }

    method SubmitPrepared(prepared: Result<ReviewPayload, PayloadError>, fault: Fault) returns (done: bool)
      modifies this
      ensures (g, if done then Posted else ToolFailed) == CreateReview(old(g), CreationOfPrepared(prepared), fault)
    {
      hide Strip;
      if fault == FailsBefore || prepared.Failure? {
        return false;
      }
      var p := prepared.value;
      var body := Strip(p.body);
      if (body == "" && p.comments == []) || Strip(p.headSha) == "" {
        return false;
      }
      g := g.(reviews := g.reviews + [Review(body, p.headSha, true)]);
      return fault == Works;
    }
  }

  class ToolRuntimePROutputPoster {
    const tools: GitHubTools

    constructor (tools: GitHubTools)
      ensures this.tools == tools
    {
      this.tools := tools;
    }

    /** Preflight first (head, then existing review), then the comment, then the review. */
    method PostOutputs(site: Site, body: string, review: Option<ReviewPayload>, plan: Plan) returns (outcome: Outcome)
      modifies tools
      ensures (tools.g, outcome) == Attempt(old(tools.g), site, body, review, plan)
    {
      MarkerIsNotBlank(site);
      hide AttemptReview, Write, ForSubmission, CreationOf, TargetOk, CommentMarker, Strip;
      if review.None? {
        outcome := WriteOutputs(site.Ok(), site.Marker(), body, None, plan);
        return;
      }
      var submission := ForSubmission(review.value, site.correlationId);
      if submission.Failure? {
        return BadPayload;
      }
      outcome := PostPrepared(site.Ok(), site.Marker(), body, submission.value, site.correlationId, plan);
    }

    method PostPrepared(ok: bool, marker: string, body: string, q: ReviewPayload, correlationId: string, plan: Plan)
      returns (outcome: Outcome)
      requires Strip(marker) != ""
      modifies tools
      ensures (tools.g, outcome)
           == AttemptReview(old(tools.g), ok, marker, q.headSha, correlationId, body, CreationOf(q), plan)
    {
      hide PreflightReview, Write, CreationOf, Strip;
      var found := Preflight(ok, q.headSha, correlationId, plan);
      if found.Stop? {
        return found.outcome;
      }
      outcome := WriteOutputs(ok, marker, body, if found.Missing? then Some(q) else None, plan);
    }

    /** The comment, then the review if it is to be created. */
    method WriteOutputs(ok: bool, marker: string, body: string, toCreate: Option<ReviewPayload>, plan: Plan)
      returns (outcome: Outcome)
      requires Strip(marker) != ""
      modifies tools
      ensures (tools.g, outcome)
           == Write(old(tools.g), ok, marker, body, if toCreate.Some? then CreationOf(toCreate.value) else NotNeeded, plan)
    {
      PersistedBodyIsNotBlank(body, marker);
      hide CreateOrUpdate, CreationOf, Strip, PersistedBody;
      var done := tools.CommentCreateOrUpdate(ok, body, marker, plan.comment);
      if !done {
        return ToolFailed;
      }
      tools.Others(plan.afterComment);
      if toCreate.None? {
        return Posted;
      }
      done := tools.ReviewCreate(ok, toCreate.value, plan.create);
      return if done then Posted else ToolFailed;
    }

    method Preflight(ok: bool, headSha: string, correlationId: string, plan: Plan) returns (found: Preflight)
      modifies tools
      ensures (tools.g, found) == PreflightReview(old(tools.g), ok, headSha, correlationId, plan)
    {
      var head := tools.ViewHead(ok, plan.view);
      if head.None? {
        return Stop(ToolFailed);
      }
      if head.value != headSha {
        return Stop(StaleHead);
      }
      tools.Others(plan.afterView);
      var reviews := tools.ListReviews(ok, plan.list);
      if reviews.None? {
        return Stop(ToolFailed);
      }
      found := Missing;
      for k := 0 to |reviews.value|
        invariant found == Missing && forall i :: 0 <= i < k ==> !Matches(reviews.value[i], headSha, correlationId)
      {
        if Matches(reviews.value[k], headSha, correlationId) {
          found := Existing;
          break;
        }
      }
      tools.Others(plan.afterList);
    }

    /** Only the review, after the same preflight. */
    method PostReview(site: Site, review: ReviewPayload, plan: Plan) returns (outcome: Outcome)
      modifies tools
      ensures (tools.g, outcome) == AttemptReviewOnly(old(tools.g), site, review, plan)
    {
      var submission := ForSubmission(review, site.correlationId);
      if submission.Failure? {
        return BadPayload;
      }
      var q := submission.value;
      var found := Preflight(site.Ok(), q.headSha, site.correlationId, plan);
      if found.Stop? {
        return found.outcome;
      }
      if found.Existing? {
        return Posted;
      }
      var done := tools.ReviewCreate(site.Ok(), q, plan.create);
      return if done then Posted else ToolFailed;
    }
  }
}
