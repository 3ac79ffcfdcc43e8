/** Where publishing at most once ends: listings stop at their cap, and the head may move after it was checked.
    Both are stated for every plan, faults and others' activity included. */
module PublishingLimits {
  import opened Basics
  import opened Text
  import opened ReviewPayload
  import opened Publishing
  import opened PublishingRuns

  // Counting our output

  predicate OwnReview(r: Review) {
    r.ours
  }

  predicate OwnComment(c: Comment) {
    c.ours
  }

  function OurReviews(g: GitHub): nat {
    |Filter(OwnReview, g.reviews)|
  }

  function OurComments(g: GitHub): nat {
    |Filter(OwnComment, g.comments)|
  }

  lemma ReviewCounts(reviews: seq<Review>, r: Review)
    ensures |Filter(OwnReview, reviews + [r])| == |Filter(OwnReview, reviews)| + (if r.ours then 1 else 0)
  {
    FilterAppend(OwnReview, reviews, [r]);
    assert [r][1..] == [];
  }

  lemma CommentCounts(comments: seq<Comment>, c: Comment)
    ensures |Filter(OwnComment, comments + [c])| == |Filter(OwnComment, comments)| + (if c.ours then 1 else 0)
  {
    FilterAppend(OwnComment, comments, [c]);
    assert [c][1..] == [];
  }

  lemma {:induction false} OthersAddNoneOfOurs(g: GitHub, es: seq<Env>)
    ensures OurReviews(AllHappen(g, es)) == OurReviews(g) && OurComments(AllHappen(g, es)) == OurComments(g)
    decreases es
  {
    if es != [] {
      match es[0] {
        case Push(_) =>
        case OtherComment(body) => CommentCounts(g.comments, Comment(body, false));
        case OtherReview(body, commitId) => ReviewCounts(g.reviews, Review(body, commitId, false));
      }
      OthersAddNoneOfOurs(Happens(g, es[0]), es[1..]);
    }
  }

  lemma UpdateKeepsCount(comments: seq<Comment>, i: nat, body: string)
    requires i < |comments|
    ensures |Filter(OwnComment, comments[i := comments[i].(body := body)])| == |Filter(OwnComment, comments)|
  {
    var c, after := comments[i], comments[i + 1..];
    var c' := c.(body := body);
    assert comments == comments[..i] + [c] + after;
    assert comments[i := c'] == comments[..i] + [c'] + after;
    FilterAppend(OwnComment, comments[..i] + [c], after);
    FilterAppend(OwnComment, comments[..i] + [c'], after);
    CommentCounts(comments[..i], c);
    CommentCounts(comments[..i], c');
  }

  lemma CommentCallCounts(g: GitHub, body: string, marker: string)
    requires marker != ""
    ensures var g' := CreateOrUpdate(g, body, marker);
            && OurComments(g')
               == OurComments(g) + (if FirstWithMarker(Listed(g.comments), marker).None? then 1 else 0)
            && OurReviews(g') == OurReviews(g)
  {
    hide PersistedBody, FirstWithMarker, Filter;
    var persisted := PersistedBody(body, marker);
    match FirstWithMarker(Listed(g.comments), marker)
    case Some(i) => UpdateKeepsCount(g.comments, i, persisted);
    case None => CommentCounts(g.comments, Comment(persisted, true));
  }

  lemma WriteCounts(g: GitHub, ok: bool, marker: string, body: string, creation: Creation, plan: Plan)
    requires marker != "" && (creation.Adds? ==> creation.review.ours)
    ensures var g' := Write(g, ok, marker, body, creation, plan).0;
            && OurReviews(g')
               == OurReviews(g)
                  + (if ok && plan.comment == Works && creation.Adds? && plan.create != FailsBefore then 1 else 0)
            && OurComments(g')
               == OurComments(g)
                  + (if ok && plan.comment != FailsBefore && FirstWithMarker(Listed(g.comments), marker).None? then 1
                     else 0)
  {
    hide CreateOrUpdate, AllHappen, Filter, FirstWithMarker;
    CommentCallCounts(g, body, marker);
    var g1 := CreateOrUpdate(g, body, marker);
    OthersAddNoneOfOurs(g1, plan.afterComment);
    if creation.Adds? {
      ReviewCounts(AllHappen(g1, plan.afterComment).reviews, creation.review);
    }
  }

  // When an attempt adds to our output

  /** Nothing stops the attempt at the preflight. */
  predicate Passes(g: GitHub, site: Site, review: ReviewPayload, plan: Plan) {
    && site.Ok() && ForSubmission(review, site.correlationId).Success?
    && plan.view == Works && g.head == review.headSha && plan.list == Works
  }

  /** Nothing but a listed match keeps the attempt from creating a review. */
  predicate MayCreate(g: GitHub, site: Site, review: ReviewPayload, plan: Plan) {
    && Passes(g, site, review, plan) && Strip(review.headSha) != ""
    && plan.comment == Works && plan.create != FailsBefore
  }

  /** Nothing but a listed comment with the marker keeps the attempt from creating one. */
  predicate MayComment(g: GitHub, site: Site, review: Option<ReviewPayload>, plan: Plan) {
    && site.Ok() && (review.Some? ==> Passes(g, site, review.value, plan)) && plan.comment != FailsBefore
  }

  /** Where the comment call starts. */
  function AtComment(g: GitHub, review: Option<ReviewPayload>, plan: Plan): GitHub {
    if review.None? then g else AllHappen(AllHappen(g, plan.afterView), plan.afterList)
  }

  lemma AttemptReviewCounts(g: GitHub, ok: bool, marker: string, head: string, id: string, body: string,
      creation: Creation, plan: Plan)
    requires marker != "" && (creation.Adds? ==> creation.review.ours)
    ensures var g' := AttemptReview(g, ok, marker, head, id, body, creation, plan).0;
            var passes := ok && plan.view == Works && g.head == head && plan.list == Works;
            && OurReviews(g')
               == OurReviews(g)
                  + (if && passes && plan.comment == Works && creation.Adds? && plan.create != FailsBefore
                        && !FindExisting(AllHappen(g, plan.afterView), head, id) then 1 else 0)
            && OurComments(g')
               == OurComments(g)
                  + (if && passes && plan.comment != FailsBefore
                        && FirstWithMarker(Listed(AllHappen(AllHappen(g, plan.afterView), plan.afterList).comments),
                                           marker).None? then 1 else 0)
  {
    hide Write, FindExisting, AllHappen, FirstWithMarker, OurReviews, OurComments;
    var g1 := AllHappen(g, plan.afterView);
    var g2 := AllHappen(g1, plan.afterList);
    OthersAddNoneOfOurs(g, plan.afterView);
    OthersAddNoneOfOurs(g1, plan.afterList);
    WriteCounts(g2, ok, marker, body, creation, plan);
    WriteCounts(g2, ok, marker, body, NotNeeded, plan);
  }

  /** Among the first 3000 reviews one is on that commit and carries the correlation id; stated apart from the code's
      own search. */
  ghost predicate ReviewSeen(g: GitHub, head: string, correlationId: string) {
    exists i :: 0 <= i < |g.reviews| && i < 3000 && g.reviews[i].commitId == head
                && Contains(g.reviews[i].body, correlationId)
  }

  /** Among the first 3000 comments one carries the marker. */
  ghost predicate MarkerSeen(g: GitHub, marker: string) {
    exists i :: 0 <= i < |g.comments| && i < 3000 && Contains(g.comments[i].body, marker)
  }

  lemma SearchesSee(g: GitHub, head: string, correlationId: string, marker: string)
    ensures FindExisting(g, head, correlationId) <==> ReviewSeen(g, head, correlationId)
    ensures FirstWithMarker(Listed(g.comments), marker).Some? <==> MarkerSeen(g, marker)
  {
    hide Contains;
    if FindExisting(g, head, correlationId) {
      var r :| r in Listed(g.reviews) && Matches(r, head, correlationId);
      var i :| 0 <= i < |Listed(g.reviews)| && Listed(g.reviews)[i] == r;
      assert g.reviews[i] == r;
    }
    if i :| 0 <= i < |g.reviews| && i < 3000 && Matches(g.reviews[i], head, correlationId) {
      ListedAt(g.reviews, i);
    }
    if FirstWithMarker(Listed(g.comments), marker).Some? {
      var i := FirstWithMarker(Listed(g.comments), marker).value;
      assert g.comments[i] == Listed(g.comments)[i];
    }
    if i :| 0 <= i < |g.comments| && i < 3000 && Contains(g.comments[i].body, marker) {
      ListedAt(g.comments, i);
    }
  }

  /** From any state and with any plan, an attempt adds one of our reviews exactly if nothing stops it on the way and
      no review its listing shows matches; otherwise it adds none. */
  lemma ReviewAddedIff(g: GitHub, site: Site, body: string, review: ReviewPayload, plan: Plan)
    ensures OurReviews(Attempt(g, site, body, Some(review), plan).0)
         == OurReviews(g)
            + (if && MayCreate(g, site, review, plan)
                  && !ReviewSeen(AllHappen(g, plan.afterView), review.headSha, site.correlationId) then 1 else 0)
  {
    SearchesSee(AllHappen(g, plan.afterView), review.headSha, site.correlationId, "");
    if ForSubmission(review, site.correlationId).Success? {
      MarkerIsNotBlank(site);
      var c := AttemptIs(g, site, body, review, plan);
      hide Attempt, AttemptReview, ForSubmission, TargetOk, CommentMarker, FindExisting, Strip, Matches, AllHappen,
        OurReviews, FirstWithMarker;
      AttemptReviewCounts(g, site.Ok(), site.Marker(), review.headSha, site.correlationId, body, c, plan);
    }
  }

  /** The same for the comment call: an attempt adds one of our comments exactly if it gets to that call and no
      comment the listing shows carries the marker. */
  lemma CommentAddedIff(g: GitHub, site: Site, body: string, review: Option<ReviewPayload>, plan: Plan)
    ensures OurComments(Attempt(g, site, body, review, plan).0)
         == OurComments(g)
            + (if && MayComment(g, site, review, plan)
                  && !MarkerSeen(AtComment(g, review, plan), site.Marker()) then 1 else 0)
  {
    SearchesSee(AtComment(g, review, plan), "", "", site.Marker());
    MarkerIsNotBlank(site);
    if review.None? {
      hide Write, FirstWithMarker, OurComments, TargetOk, CommentMarker, Strip;
      WriteCounts(g, site.Ok(), site.Marker(), body, NotNeeded, plan);
    } else if ForSubmission(review.value, site.correlationId).Success? {
      var c := AttemptIs(g, site, body, review.value, plan);
      hide Attempt, AttemptReview, ForSubmission, TargetOk, CommentMarker, FindExisting, Strip, Matches, AllHappen,
        OurComments, FirstWithMarker;
      AttemptReviewCounts(g, site.Ok(), site.Marker(), review.value.headSha, site.correlationId, body, c, plan);
    }
  }

  // Retries

  /** A review of someone else that the listing shows would pass for ours. */
  ghost predicate OthersMatch(g: GitHub, head: string, correlationId: string) {
    exists r <- Listed(g.reviews) :: !r.ours && Matches(r, head, correlationId)
  }

  ghost predicate OthersMarked(g: GitHub, marker: string) {
    exists c <- Listed(g.comments) :: !c.ours && Contains(c.body, marker)
  }

  lemma FoundIff(g: GitHub, es: seq<Env>, head: string, correlationId: string)
    requires forall r <- g.reviews :: r.ours ==> Matches(r, head, correlationId)
    ensures FindExisting(AllHappen(g, es), head, correlationId)
            <==> || (exists j :: 0 <= j < |g.reviews| && g.reviews[j].ours && j < LIST_CAP)
                 || OthersMatch(AllHappen(g, es), head, correlationId)
  {
    var g' := AllHappen(g, es);
    OthersOnlyAdd(g, es);
    hide Matches, AllHappen;
    if FindExisting(g', head, correlationId) {
      var r :| r in Listed(g'.reviews) && Matches(r, head, correlationId);
      var i :| 0 <= i < |Listed(g'.reviews)| && Listed(g'.reviews)[i] == r;
      assert r.ours ==> g.reviews[i].ours;
    }
    if j :| 0 <= j < |g.reviews| && g.reviews[j].ours && j < LIST_CAP {
      assert g.reviews[j] in g.reviews && g'.reviews[j] == g.reviews[j];
      ListedAt(g'.reviews, j);
    }
  }

  lemma MarkedIff(g: GitHub, g': GitHub, marker: string)
    requires AddedByOthers(g, g') && forall c <- g.comments :: c.ours ==> Contains(c.body, marker)
    ensures FirstWithMarker(Listed(g'.comments), marker).Some?
            <==> || (exists j :: 0 <= j < |g.comments| && g.comments[j].ours && j < LIST_CAP)
                 || OthersMarked(g', marker)
  {
    hide Contains;
    var found := FirstWithMarker(Listed(g'.comments), marker);
    if found.Some? {
      var i := found.value;
      assert Listed(g'.comments)[i] in Listed(g'.comments) && Listed(g'.comments)[i] == g'.comments[i];
      assert g'.comments[i].ours ==> g.comments[i].ours;
    }
    if j :| 0 <= j < |g.comments| && g.comments[j].ours && j < LIST_CAP {
      assert g.comments[j] in g.comments && g'.comments[j] == g.comments[j];
      ListedAt(g'.comments, j);
    }
  }

  /** After any history of attempts, failing anywhere, among others' activity: a further attempt that nothing else
      stops adds a review, beside the one of ours there may be, exactly if every review of ours is beyond the cap and
      nobody else's listed one matches. Ours is beyond the cap if 3000 reviews were there when it was created. */
  lemma RetryDuplicatesIff(g0: GitHub, site: Site, hs: seq<Happening>, body: string, review: ReviewPayload, plan: Plan)
    requires NothingOurs(g0) && forall h <- hs :: Reviews(h, review.headSha)
    requires MayCreate(Run(g0, site, hs), site, review, plan)
    ensures var g := Run(g0, site, hs);
            OurReviews(Attempt(g, site, body, Some(review), plan).0) == OurReviews(g) + 1
            <==> && (forall j :: 0 <= j < |g.reviews| && g.reviews[j].ours ==> j >= LIST_CAP)
                 && !OthersMatch(AllHappen(g, plan.afterView), review.headSha, site.correlationId)
  {
    AtMostOne(g0, site, hs, review.headSha);
    hide *;
    var g := Run(g0, site, hs);
    ReviewAddedIff(g, site, body, review, plan);
    SearchesSee(AllHappen(g, plan.afterView), review.headSha, site.correlationId, "");
    FoundIff(g, plan.afterView, review.headSha, site.correlationId);
  }

  /** The same for the summary comment. */
  lemma CommentDuplicatesIff(g0: GitHub, site: Site, hs: seq<Happening>, body: string, review: Option<ReviewPayload>,
      plan: Plan, head: string)
    requires NothingOurs(g0) && forall h <- hs :: Reviews(h, head)
    requires MayComment(Run(g0, site, hs), site, review, plan)
    ensures var g := Run(g0, site, hs);
            OurComments(Attempt(g, site, body, review, plan).0) == OurComments(g) + 1
            <==> && (forall j :: 0 <= j < |g.comments| && g.comments[j].ours ==> j >= LIST_CAP)
                 && !OthersMarked(AtComment(g, review, plan), site.Marker())
  {
    AtMostOne(g0, site, hs, head);
    var g := Run(g0, site, hs);
    BeforeCommentAdded(g, review, plan);
    hide *;
    CommentAddedIff(g, site, body, review, plan);
    SearchesSee(AtComment(g, review, plan), "", "", site.Marker());
    MarkedIff(g, AtComment(g, review, plan), site.Marker());
  }

  lemma BeforeCommentAdded(g: GitHub, review: Option<ReviewPayload>, plan: Plan)
    ensures AddedByOthers(g, AtComment(g, review, plan))
  {
    if review.Some? {
      AllHappenConcat(g, plan.afterView, plan.afterList);
      OthersOnlyAdd(g, plan.afterView + plan.afterList);
    }
  }

  /** For one: 2999 reviews, somebody adds one more during an attempt whose review creation reports a failure after
      its effect, and the retry creates a second review of ours. */
  lemma RetryAfterFailureDuplicates(g: GitHub, site: Site, body: string, review: ReviewPayload)
    requires |g.reviews| == LIST_CAP - 1 && MayCreate(g, site, review, QUIET)
    requires forall r <- g.reviews :: !Matches(r, review.headSha, site.correlationId)
    ensures var plan := QUIET.(afterList := [OtherReview("", "")], create := FailsAfter);
            var (g1, o) := Attempt(g, site, body, Some(review), plan);
            && o == ToolFailed && OurReviews(g1) == OurReviews(g) + 1
            && OurReviews(Attempt(g1, site, body, Some(review), QUIET).0) == OurReviews(g) + 2
  {
    var plan := QUIET.(afterList := [OtherReview("", "")], create := FailsAfter);
    var head, id := review.headSha, site.correlationId;
    var c := AttemptIs(g, site, body, review, plan);
    assert Strip("") == "" && c.Adds?;
    FailedAfterAnother(g, site.Marker(), head, id, body, c.review, plan);
    hide Attempt, AttemptReview, ForSubmission, TargetOk, CommentMarker, FindExisting, Strip, Matches, OurReviews,
      ReviewSeen;
    var g1 := Attempt(g, site, body, Some(review), plan).0;
    assert AllHappen(g, []) == g && AllHappen(g1, []) == g1;
    SearchesSee(g, head, id, "");
    SearchesSee(g1, head, id, "");
    ReviewAddedIff(g, site, body, review, plan);
    ReviewAddedIff(g1, site, body, review, QUIET);
  }

  lemma FailedAfterAnother(g: GitHub, marker: string, head: string, id: string, body: string, r: Review, plan: Plan)
    requires g.head == head != "" && |g.reviews| == LIST_CAP - 1
    requires forall x <- g.reviews :: !Matches(x, head, id)
    requires plan == QUIET.(afterList := [OtherReview("", "")], create := FailsAfter)
    ensures var (g1, o) := AttemptReview(g, true, marker, head, id, body, Adds(r), plan);
            o == ToolFailed && g1.head == head && !FindExisting(g, head, id) && !FindExisting(g1, head, id)
  {
    hide CreateOrUpdate, Contains;
    var other := Review("", "", false);
    var g2 := g.(reviews := g.reviews + [other]);
    assert [OtherReview("", "")][1..] == [];
    assert AllHappen(g, []) == g && AllHappen(g, [OtherReview("", "")]) == AllHappen(g2, []) == g2;
    CommentLeavesReviews(g2, body, marker);
    var g3 := CreateOrUpdate(g2, body, marker);
    assert AllHappen(g3, []) == g3;
    var g1 := AttemptReview(g, true, marker, head, id, body, Adds(r), plan).0;
    assert g1.reviews == g2.reviews + [r];
    assert Listed(g1.reviews) == g2.reviews;
    assert forall x <- g2.reviews :: x in g.reviews || x == other;
    assert Listed(g.reviews) == g.reviews;
  }

  lemma CommentLeavesReviews(g: GitHub, body: string, marker: string)
    ensures CreateOrUpdate(g, body, marker).reviews == g.reviews && CreateOrUpdate(g, body, marker).head == g.head
  {
  }

  /** And with 3000 comments there, a comment call that reports a failure after its effect is followed by a second
      summary comment. */
  lemma RetryAfterFailureComments(g: GitHub, site: Site, body: string)
    requires site.Ok() && |g.comments| >= LIST_CAP && FirstWithMarker(Listed(g.comments), site.Marker()).None?
    ensures var (g1, o) := Attempt(g, site, body, None, QUIET.(comment := FailsAfter));
            && o == ToolFailed && OurComments(g1) == OurComments(g) + 1
            && OurComments(Attempt(g1, site, body, None, QUIET).0) == OurComments(g) + 2
  {
    var plan := QUIET.(comment := FailsAfter);
    var g1 := Attempt(g, site, body, None, plan).0;
    MarkerIsNotBlank(site);
    hide FirstWithMarker, PersistedBody, TargetOk, CommentMarker, Strip, OurComments;
    assert Listed(g1.comments) == Listed(g.comments);
    SearchesSee(g, "", "", site.Marker());
    SearchesSee(g1, "", "", site.Marker());
    CommentAddedIff(g, site, body, None, plan);
    CommentAddedIff(g1, site, body, None, QUIET);
  }

  // Pushes

  /** The head after the last push, if there was one. */
  function LastPush(es: seq<Env>): Option<string> {
    if es == [] then None
    else if LastPush(es[1..]).Some? then LastPush(es[1..])
    else if es[0].Push? then Some(es[0].head) else None
  }

  lemma {:induction false} HeadFollowsPushes(g: GitHub, es: seq<Env>)
    ensures AllHappen(g, es).head == if LastPush(es).Some? then LastPush(es).value else g.head
    decreases es
  {
    if es != [] {
      HeadFollowsPushes(Happens(g, es[0]), es[1..]);
    }
  }

  /** The head is checked once. A review that is created is for the reviewed commit whatever was pushed since, and
      that commit is no longer the head exactly if the last push during the attempt was another one. */
  lemma CreatedOnMovedHeadIff(g: GitHub, site: Site, body: string, review: ReviewPayload, plan: Plan)
    requires MayCreate(g, site, review, plan)
    requires !FindExisting(AllHappen(g, plan.afterView), review.headSha, site.correlationId)
    ensures var g' := Attempt(g, site, body, Some(review), plan).0;
            && g'.reviews != [] && g'.reviews[|g'.reviews| - 1].ours
            && g'.reviews[|g'.reviews| - 1].commitId == review.headSha
            && g'.head == (match LastPush(Interference(plan)) case Some(h) => h case None => review.headSha)
            && (g'.head != review.headSha
                <==> LastPush(Interference(plan)).Some? && LastPush(Interference(plan)).value != review.headSha)
  {
    var c := AttemptIs(g, site, body, review, plan);
    hide *;
    MayCreateMeans(g, site, review, plan);
    CreatedAtHead(g, site.Marker(), review.headSha, site.correlationId, body, c.review, plan);
  }

  lemma MayCreateMeans(g: GitHub, site: Site, review: ReviewPayload, plan: Plan)
    ensures MayCreate(g, site, review, plan)
            <==> && site.Ok() && ForSubmission(review, site.correlationId).Success? && Strip(review.headSha) != ""
                 && g.head == review.headSha
                 && plan.view == Works && plan.list == Works && plan.comment == Works && plan.create != FailsBefore
  {
    hide ForSubmission, Strip, TargetOk;
  }

  lemma CreatedAtHead(g: GitHub, marker: string, head: string, id: string, body: string, r: Review, plan: Plan)
    requires plan.view == Works && plan.list == Works && plan.comment == Works && plan.create != FailsBefore
    requires g.head == head && !FindExisting(AllHappen(g, plan.afterView), head, id)
    ensures var g' := AttemptReview(g, true, marker, head, id, body, Adds(r), plan).0;
            && g'.reviews != [] && g'.reviews[|g'.reviews| - 1] == r
            && g'.head == match LastPush(Interference(plan)) case Some(h) => h case None => head
  {
    hide FindExisting, AllHappen, CreateOrUpdate, LastPush;
    var g1 := AllHappen(g, plan.afterView);
    var g2 := AllHappen(g1, plan.afterList);
    var g3 := CreateOrUpdate(g2, body, marker);
    CommentLeavesReviews(g2, body, marker);
    HeadFollowsPushes(g3, plan.afterComment);
    HeadFollowsPushes(g2, plan.afterComment);
    AllHappenConcat(g, plan.afterView, plan.afterList);
    AllHappenConcat(g, plan.afterView + plan.afterList, plan.afterComment);
    HeadFollowsPushes(g, Interference(plan));
  }

  /** For one, a push right after the head check: the review is posted on a commit that is not the head. */
  lemma PushAfterCheckIsMissed(g: GitHub, site: Site, body: string, review: ReviewPayload, pushed: string)
    requires MayCreate(g, site, review, QUIET) && pushed != review.headSha
    requires !FindExisting(g, review.headSha, site.correlationId)
    ensures var (g', o) := Attempt(g, site, body, Some(review), QUIET.(afterView := [Push(pushed)]));
            && o == Posted && g'.head == pushed
            && g'.reviews != [] && g'.reviews[|g'.reviews| - 1].ours
            && g'.reviews[|g'.reviews| - 1].commitId == review.headSha
  {
    var plan, g1 := QUIET.(afterView := [Push(pushed)]), g.(head := pushed);
    assert [Push(pushed)][1..] == [];
    assert AllHappen(g, [Push(pushed)]) == AllHappen(g1, []) == g1;
    assert FindExisting(g1, review.headSha, site.correlationId) == FindExisting(g, review.headSha, site.correlationId);
    assert LastPush([Push(pushed)]) == Some(pushed) && Interference(plan) == [Push(pushed)];
    hide Attempt, ForSubmission, TargetOk, CommentMarker, FindExisting, Strip, Matches;
    FaultFreePostsIff(g, site, body, review, plan);
    CreatedOnMovedHeadIff(g, site, body, review, plan);
  }
}
