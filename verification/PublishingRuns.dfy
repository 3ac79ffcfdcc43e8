/** Any number of sequential attempts to publish, each failing anywhere, among arbitrary other activity: at most
    one review and one summary comment are created, and a success leaves both in place. */
module PublishingRuns {
  import opened Basics
  import opened Text
  import opened ReviewPayload
  import opened ReviewText
  import opened Publishing

  /** Our reviews carry the correlation id on the reviewed head; all but the last are beyond the listing. */
  ghost predicate ReviewsOk(reviews: seq<Review>, head: string, correlationId: string) {
    && (forall r <- reviews :: r.ours ==> Matches(r, head, correlationId))
    && (forall i, j :: 0 <= i < j < |reviews| && reviews[i].ours && reviews[j].ours ==> i >= LIST_CAP)
  }

  /** Our comments carry the marker; all but the last are beyond the listing. */
  ghost predicate CommentsOk(comments: seq<Comment>, marker: string) {
    && (forall c <- comments :: c.ours ==> Contains(c.body, marker))
    && (forall i, j :: 0 <= i < j < |comments| && comments[i].ours && comments[j].ours ==> i >= LIST_CAP)
  }

  ghost predicate HasMarked(comments: seq<Comment>, marker: string) {
    exists c <- comments :: Contains(c.body, marker)
  }

  ghost predicate HasMatch(reviews: seq<Review>, head: string, correlationId: string) {
    exists r <- reviews :: Matches(r, head, correlationId)
  }

  // Others

  /** Others only add, and nothing they add is ours. */
  ghost predicate AddedByOthers(g: GitHub, g': GitHub) {
    && g.reviews <= g'.reviews && g.comments <= g'.comments
    && (forall i :: |g.reviews| <= i < |g'.reviews| ==> !g'.reviews[i].ours)
    && (forall i :: |g.comments| <= i < |g'.comments| ==> !g'.comments[i].ours)
  }

  lemma {:induction false} OthersOnlyAdd(g: GitHub, es: seq<Env>)
    ensures AddedByOthers(g, AllHappen(g, es))
    decreases es
  {
    if es != [] {
      OthersOnlyAdd(Happens(g, es[0]), es[1..]);
    }
  }

  lemma OthersKeepReviews(g: GitHub, g': GitHub, head: string, correlationId: string)
    requires AddedByOthers(g, g') && ReviewsOk(g.reviews, head, correlationId)
    ensures ReviewsOk(g'.reviews, head, correlationId)
  {
    forall r <- g'.reviews ensures r.ours ==> Matches(r, head, correlationId) {
      var i :| 0 <= i < |g'.reviews| && g'.reviews[i] == r;
      assert i < |g.reviews| ==> r in g.reviews;
    }
  }

  lemma OthersKeepComments(g: GitHub, g': GitHub, marker: string)
    requires AddedByOthers(g, g') && CommentsOk(g.comments, marker)
    ensures CommentsOk(g'.comments, marker)
  {
    forall c <- g'.comments ensures c.ours ==> Contains(c.body, marker) {
      var i :| 0 <= i < |g'.comments| && g'.comments[i] == c;
      assert i < |g.comments| ==> c in g.comments;
    }
  }

  // The comment call

  /** No comment is lost, and those without the marker are untouched. */
  ghost predicate CommentsFrame(cs: seq<Comment>, cs': seq<Comment>, marker: string) {
    && |cs| <= |cs'|
    && (forall i :: 0 <= i < |cs| && !Contains(cs[i].body, marker) ==> cs'[i] == cs[i])
  }

  lemma ListedAt<T>(items: seq<T>, i: nat)
    requires i < |items| && i < LIST_CAP
    ensures items[i] in Listed(items)
  {
    assert Listed(items)[i] == items[i];
  }

  lemma NoMarkerMeansNoneOurs(comments: seq<Comment>, marker: string)
    requires CommentsOk(comments, marker) && FirstWithMarker(Listed(comments), marker).None?
    ensures forall k :: 0 <= k < |comments| && comments[k].ours ==> k >= LIST_CAP
  {
    forall k | 0 <= k < |comments| && k < LIST_CAP ensures !comments[k].ours {
      ListedAt(comments, k);
      assert comments[k] in comments;
    }
  }

  lemma UpdateKeepsOk(comments: seq<Comment>, i: nat, body: string, marker: string)
    requires i < |comments| && CommentsOk(comments, marker) && Contains(body, marker)
    ensures CommentsOk(comments[i := comments[i].(body := body)], marker)
  {
    var updated := comments[i := comments[i].(body := body)];
    forall c <- updated ensures c.ours ==> Contains(c.body, marker) {
      var k :| 0 <= k < |updated| && updated[k] == c;
      assert k != i ==> c in comments;
    }
  }

  lemma CommentCall(g: GitHub, body: string, marker: string)
    requires marker != ""
    ensures var g' := CreateOrUpdate(g, body, marker);
            && g'.reviews == g.reviews && g'.head == g.head
            && (CommentsOk(g.comments, marker) ==> CommentsOk(g'.comments, marker))
            && CommentsFrame(g.comments, g'.comments, marker)
            && HasMarked(g'.comments, marker)
  {
    PersistedBodyHasMarker(body, marker);
    var g', persisted := CreateOrUpdate(g, body, marker), PersistedBody(body, marker);
    match FirstWithMarker(Listed(g.comments), marker)
    case Some(i) =>
      assert g'.comments[i] in g'.comments;
      if CommentsOk(g.comments, marker) {
        UpdateKeepsOk(g.comments, i, persisted, marker);
      }
    case None =>
      assert g'.comments[|g.comments|] in g'.comments;
      if CommentsOk(g.comments, marker) {
        NoMarkerMeansNoneOurs(g.comments, marker);
      }
  }

  /** A comment changes in the comment call, whoever wrote it, exactly if it is the first listed one with the
      marker and does not hold the persisted text already. */
  lemma CommentChangesIff(g: GitHub, body: string, marker: string, i: nat)
    requires marker != "" && i < |g.comments|
    ensures var g' := CreateOrUpdate(g, body, marker);
            && i < |g'.comments|
            && (g'.comments[i] != g.comments[i]
                <==> (&& i < LIST_CAP && Contains(g.comments[i].body, marker)
                      && (forall k :: 0 <= k < i ==> !Contains(g.comments[k].body, marker))
                      && g.comments[i].body != PersistedBody(body, marker)))
            && g'.comments[i].ours == g.comments[i].ours
  {
    hide Contains, PersistedBody;
    var listed := Listed(g.comments);
    assert forall k :: 0 <= k < |listed| ==> listed[k] == g.comments[k];
    if i < |listed| {
      ListedAt(g.comments, i);
    }
  }

  /** For one, the marked comment of another user loses its text. */
  lemma AnothersCommentIsOverwritten(g: GitHub, body: string, marker: string)
    requires marker != "" && body != "" && !Contains(body, marker) && g.comments == [Comment(marker, false)]
    ensures CreateOrUpdate(g, body, marker).comments == [Comment(marker + "\n\n" + body, false)]
  {
    PersistedBodyHasMarker("", marker);
    CommentChangesIff(g, body, marker, 0);
  }

  // The review creation

  /** The review that is created: trimmed text with the correlation id, on the head it was prepared for. */
  lemma CreatedReview(p: ReviewPayload, correlationId: string)
    requires ForSubmission(p, correlationId).Success?
    ensures var q := ForSubmission(p, correlationId).value;
            && q.headSha == p.headSha
            && Strip(p.body) <= q.body
            && (CreationOf(q).Refused? <==> Strip(p.headSha) == "")
            && (CreationOf(q) != Refused ==> CreationOf(q) == Adds(Review(q.body, p.headSha, true)))
            && Matches(Review(q.body, p.headSha, true), p.headSha, correlationId)
  {
    RepreparationIsNoOp(p, correlationId);
    SubmittedBody(p, correlationId);
    BodyIsKept(p, correlationId);
  }

  /** Nothing of ours among the reviews a listing shows. */
  ghost predicate NoneListedOurs(reviews: seq<Review>) {
    forall i :: 0 <= i < |reviews| && i < LIST_CAP ==> !reviews[i].ours
  }

  lemma NotFoundMeansNoneOurs(g: GitHub, head: string, correlationId: string)
    requires ReviewsOk(g.reviews, head, correlationId) && !FindExisting(g, head, correlationId)
    ensures NoneListedOurs(g.reviews)
  {
    forall i | 0 <= i < |g.reviews| && i < LIST_CAP ensures !g.reviews[i].ours {
      ListedAt(g.reviews, i);
      assert g.reviews[i] in g.reviews;
    }
  }

  lemma OthersKeepNoneListed(g: GitHub, g': GitHub)
    requires AddedByOthers(g, g') && NoneListedOurs(g.reviews)
    ensures NoneListedOurs(g'.reviews)
  {
    forall i | 0 <= i < |g'.reviews| && i < LIST_CAP ensures !g'.reviews[i].ours {
      assert i < |g.reviews| ==> g'.reviews[i] == g.reviews[i];
    }
  }

  lemma AppendKeepsOk(reviews: seq<Review>, r: Review, head: string, correlationId: string)
    requires ReviewsOk(reviews, head, correlationId) && NoneListedOurs(reviews) && Matches(r, head, correlationId)
    ensures ReviewsOk(reviews + [r], head, correlationId)
  {
    forall x <- reviews + [r] ensures x.ours ==> Matches(x, head, correlationId) {
      assert x in reviews || x == r;
    }
  }

  // One attempt

  /** Safe for our own output: both invariants. */
  ghost predicate Safe(g: GitHub, marker: string, head: string, correlationId: string) {
    CommentsOk(g.comments, marker) && ReviewsOk(g.reviews, head, correlationId)
  }

  /** What an attempt leaves alone. */
  ghost predicate Frame(g: GitHub, g': GitHub, marker: string) {
    g.reviews <= g'.reviews && CommentsFrame(g.comments, g'.comments, marker)
  }

  lemma OthersKeepSafe(g: GitHub, es: seq<Env>, marker: string, head: string, correlationId: string)
    ensures var g' := AllHappen(g, es);
            && Frame(g, g', marker)
            && (Safe(g, marker, head, correlationId) ==> Safe(g', marker, head, correlationId))
            && (HasMarked(g.comments, marker) ==> HasMarked(g'.comments, marker))
            && (HasMatch(g.reviews, head, correlationId) ==> HasMatch(g'.reviews, head, correlationId))
            && (NoneListedOurs(g.reviews) ==> NoneListedOurs(g'.reviews))
  {
    var g' := AllHappen(g, es);
    OthersOnlyAdd(g, es);
    if Safe(g, marker, head, correlationId) {
      OthersKeepReviews(g, g', head, correlationId);
      OthersKeepComments(g, g', marker);
    }
    if HasMarked(g.comments, marker) {
      var c :| c in g.comments && Contains(c.body, marker);
      assert c in g'.comments;
    }
    if HasMatch(g.reviews, head, correlationId) {
      var r :| r in g.reviews && Matches(r, head, correlationId);
      assert r in g'.reviews;
    }
    if NoneListedOurs(g.reviews) {
      OthersKeepNoneListed(g, g');
    }
  }

  /** A creation that was asked for only because nothing of ours is listed. */
  ghost predicate CreationOk(g: GitHub, creation: Creation, head: string, correlationId: string) {
    creation.Adds? ==> Matches(creation.review, head, correlationId) && NoneListedOurs(g.reviews)
  }

  lemma CreateKeepsSafe(g: GitHub, creation: Creation, fault: Fault, marker: string, head: string,
      correlationId: string)
    requires Safe(g, marker, head, correlationId) && CreationOk(g, creation, head, correlationId)
    ensures var (g', o) := CreateReview(g, creation, fault);
            && Safe(g', marker, head, correlationId) && g'.comments == g.comments && g.reviews <= g'.reviews
            && (o == Posted && creation.Adds? ==> HasMatch(g'.reviews, head, correlationId))
  {
    if creation.Adds? {
      AppendKeepsOk(g.reviews, creation.review, head, correlationId);
      assert creation.review in g.reviews + [creation.review];
    }
  }

  lemma WriteKeepsSafe(g: GitHub, ok: bool, marker: string, body: string, creation: Creation, plan: Plan,
      head: string, correlationId: string)
    requires marker != ""
    requires Safe(g, marker, head, correlationId) && CreationOk(g, creation, head, correlationId)
    ensures var (g', o) := Write(g, ok, marker, body, creation, plan);
            && Safe(g', marker, head, correlationId) && Frame(g, g', marker)
            && (o == Posted ==> HasMarked(g'.comments, marker))
            && (o == Posted && creation.Adds? ==> HasMatch(g'.reviews, head, correlationId))
            && (HasMatch(g.reviews, head, correlationId) ==> HasMatch(g'.reviews, head, correlationId))
  {
    hide CreateOrUpdate, AllHappen, CreateReview, Matches, Contains;
    CommentCall(g, body, marker);
    var g1 := CreateOrUpdate(g, body, marker);
    OthersKeepSafe(g1, plan.afterComment, marker, head, correlationId);
    var g2 := AllHappen(g1, plan.afterComment);
    CreateKeepsSafe(g2, creation, plan.create, marker, head, correlationId);
    var (g', o) := Write(g, ok, marker, body, creation, plan);
    assert g.reviews <= g'.reviews;
    if HasMatch(g.reviews, head, correlationId) {
      var r :| r in g.reviews && Matches(r, head, correlationId);
      assert r in g'.reviews;
    }
  }

  lemma FoundMeansMatch(g: GitHub, head: string, correlationId: string)
    requires FindExisting(g, head, correlationId)
    ensures HasMatch(g.reviews, head, correlationId)
  {
    var r :| r in Listed(g.reviews) && Matches(r, head, correlationId);
    assert r in g.reviews;
  }

  lemma PreflightKeepsSafe(g: GitHub, ok: bool, marker: string, head: string, correlationId: string, plan: Plan)
    requires Safe(g, marker, head, correlationId)
    ensures var (g1, found) := PreflightReview(g, ok, head, correlationId, plan);
            && Safe(g1, marker, head, correlationId) && Frame(g, g1, marker)
            && (found.Existing? ==> HasMatch(g1.reviews, head, correlationId))
            && (found.Missing? ==> NoneListedOurs(g1.reviews))
            && (found.Stop? ==> found.outcome != Posted)
            && (g.head != head ==> g1 == g && found.Stop?)
  {
    if ok && plan.view == Works && g.head == head {
      OthersKeepSafe(g, plan.afterView, marker, head, correlationId);
      var g1 := AllHappen(g, plan.afterView);
      OthersKeepSafe(g1, plan.afterList, marker, head, correlationId);
      if FindExisting(g1, head, correlationId) {
        FoundMeansMatch(g1, head, correlationId);
      } else {
        NotFoundMeansNoneOurs(g1, head, correlationId);
      }
    }
  }

  lemma AttemptReviewKeepsSafe(g: GitHub, ok: bool, marker: string, head: string, correlationId: string,
      body: string, creation: Creation, plan: Plan)
    requires marker != "" && !creation.NotNeeded?
    requires creation.Adds? ==> Matches(creation.review, head, correlationId)
    requires Safe(g, marker, head, correlationId)
    ensures var (g', o) := AttemptReview(g, ok, marker, head, correlationId, body, creation, plan);
            && Safe(g', marker, head, correlationId) && Frame(g, g', marker)
            && (o == Posted ==> HasMarked(g'.comments, marker) && HasMatch(g'.reviews, head, correlationId))
            && (g.head != head ==> g' == g && o != Posted)
  {
    PreflightKeepsSafe(g, ok, marker, head, correlationId, plan);
    var (g1, found) := PreflightReview(g, ok, head, correlationId, plan);
    if !found.Stop? {
      var wanted := if found.Existing? then NotNeeded else creation;
      WriteKeepsSafe(g1, ok, marker, body, wanted, plan, head, correlationId);
      var (g', o) := Write(g1, ok, marker, body, wanted, plan);
      assert g' == AttemptReview(g, ok, marker, head, correlationId, body, creation, plan).0;
      assert g.reviews <= g1.reviews <= g'.reviews;
      assert wanted == Refused ==> o != Posted;
    }
  }

  /** One attempt, whatever fails: our output stays safe, no review and no comment without the marker is touched, a
      success leaves the marked comment and the matching review in place, and a head that has moved means that
      nothing is written. */
  lemma AttemptKeepsSafe(g: GitHub, site: Site, body: string, review: Option<ReviewPayload>, plan: Plan, head: string)
    requires Safe(g, site.Marker(), head, site.correlationId)
    requires review.Some? ==> review.value.headSha == head
    ensures var (g', o) := Attempt(g, site, body, review, plan);
            && Safe(g', site.Marker(), head, site.correlationId) && Frame(g, g', site.Marker())
            && (o == Posted ==> HasMarked(g'.comments, site.Marker()))
            && (o == Posted && review.Some? ==> HasMatch(g'.reviews, head, site.correlationId))
            && (review.Some? && g.head != head ==> g' == g && o != Posted)
  {
    MarkerIsNotBlank(site);
    var marker, id := site.Marker(), site.correlationId;
    if review.None? {
      WriteKeepsSafe(g, site.Ok(), marker, body, NotNeeded, plan, head, id);
    } else if ForSubmission(review.value, id).Success? {
      CreatedReview(review.value, id);
      var q := ForSubmission(review.value, id).value;
      AttemptReviewKeepsSafe(g, site.Ok(), marker, head, id, body, CreationOf(q), plan);
    }
  }

  // Runs

  /** Attempts may differ in what they say (the comment and review are computed afresh), not in where. */
  datatype Happening = Tried(body: string, review: Option<ReviewPayload>, plan: Plan) | Elsewhere(es: seq<Env>)

  function After(g: GitHub, site: Site, h: Happening): GitHub {
    match h
    case Tried(body, review, plan) => Attempt(g, site, body, review, plan).0
    case Elsewhere(es) => AllHappen(g, es)
  }

  function Run(g: GitHub, site: Site, hs: seq<Happening>): GitHub
    decreases hs
  {
    if hs == [] then g else Run(After(g, site, hs[0]), site, hs[1..])
  }

  predicate Reviews(h: Happening, head: string) {
    h.Tried? && h.review.Some? ==> h.review.value.headSha == head
  }

  lemma {:induction false} RunKeepsSafe(g: GitHub, site: Site, hs: seq<Happening>, head: string)
    requires Safe(g, site.Marker(), head, site.correlationId)
    requires forall h <- hs :: Reviews(h, head)
    ensures var g' := Run(g, site, hs);
            && Safe(g', site.Marker(), head, site.correlationId) && Frame(g, g', site.Marker())
    decreases hs
  {
    if hs != [] {
      var g1 := After(g, site, hs[0]);
      match hs[0] {
        case Tried(body, review, plan) =>
          assert Reviews(hs[0], head);
          AttemptKeepsSafe(g, site, body, review, plan, head);
        case Elsewhere(es) =>
          OthersKeepSafe(g, es, site.Marker(), head, site.correlationId);
      }
      RunKeepsSafe(g1, site, hs[1..], head);
      FrameTrans(g, g1, Run(g1, site, hs[1..]), site.Marker());
    }
  }

  lemma FrameTrans(g: GitHub, g1: GitHub, g2: GitHub, marker: string)
    requires Frame(g, g1, marker) && Frame(g1, g2, marker)
    ensures Frame(g, g2, marker)
  {
  }

  ghost predicate NothingOurs(g: GitHub) {
    && (forall r <- g.reviews :: !r.ours)
    && (forall c <- g.comments :: !c.ours)
  }

  /** At most one review and one comment are ever created while the listings see everything; beyond their cap,
      only items the listings no longer reach can have a later twin. Every review that was there stays as it was,
      and so does every comment without the marker. */
  lemma AtMostOne(g: GitHub, site: Site, hs: seq<Happening>, head: string)
    requires NothingOurs(g)
    requires forall h <- hs :: Reviews(h, head)
    ensures var g' := Run(g, site, hs);
            && (forall i, j :: 0 <= i < j < |g'.reviews| && g'.reviews[i].ours && g'.reviews[j].ours ==> i >= LIST_CAP)
            && (forall i, j :: 0 <= i < j < |g'.comments| && g'.comments[i].ours && g'.comments[j].ours ==> i >= LIST_CAP)
            && (forall r <- g'.reviews :: r.ours ==> Matches(r, head, site.correlationId))
            && (forall c <- g'.comments :: c.ours ==> Contains(c.body, site.Marker()))
            && g.reviews <= g'.reviews
            && CommentsFrame(g.comments, g'.comments, site.Marker())
  {
    forall i | 0 <= i < |g.reviews| ensures !g.reviews[i].ours {
      assert g.reviews[i] in g.reviews;
    }
    forall i | 0 <= i < |g.comments| ensures !g.comments[i].ours {
      assert g.comments[i] in g.comments;
    }
    RunKeepsSafe(g, site, hs, head);
  }

  // Convergence

  predicate FaultFree(plan: Plan) {
    plan.view == Works && plan.list == Works && plan.comment == Works && plan.create == Works
  }

  /** When an attempt with a valid review and without faults posts, whatever others do meanwhile. */
  lemma FaultFreePostsIff(g: GitHub, site: Site, body: string, review: ReviewPayload, plan: Plan)
    requires FaultFree(plan) && ForSubmission(review, site.correlationId).Success?
    ensures Attempt(g, site, body, Some(review), plan).1 == Posted
            <==> (&& site.Ok() && g.head == review.headSha
                  && (|| Strip(review.headSha) != ""
                      || FindExisting(AllHappen(g, plan.afterView), review.headSha, site.correlationId)))
  {
    var c := AttemptIs(g, site, body, review, plan);
    FaultFreeReviewPostsIff(g, site.Ok(), site.Marker(), review.headSha, site.correlationId, body, c, plan);
  }

  /** An attempt with a valid review, in terms of the creation it may ask for. */
  lemma AttemptIs(g: GitHub, site: Site, body: string, review: ReviewPayload, plan: Plan) returns (c: Creation)
    requires ForSubmission(review, site.correlationId).Success?
    ensures Attempt(g, site, body, Some(review), plan)
         == AttemptReview(g, site.Ok(), site.Marker(), review.headSha, site.correlationId, body, c, plan)
    ensures Strip(review.headSha) == "" ==> c == Refused
    ensures Strip(review.headSha) != ""
        ==> c == Adds(Review(ForSubmission(review, site.correlationId).value.body, review.headSha, true))
            && Matches(c.review, review.headSha, site.correlationId)
  {
    CreatedReview(review, site.correlationId);
    var q := ForSubmission(review, site.correlationId).value;
    c := CreationOf(q);
    AttemptOfSubmission(g, site, body, review, q, plan);
  }

  lemma AttemptOfSubmission(g: GitHub, site: Site, body: string, review: ReviewPayload, q: ReviewPayload, plan: Plan)
    requires ForSubmission(review, site.correlationId) == Success(q)
    ensures Attempt(g, site, body, Some(review), plan)
         == AttemptReview(g, site.Ok(), site.Marker(), q.headSha, site.correlationId, body, CreationOf(q), plan)
  {
  }

  lemma FaultFreeReviewPostsIff(g: GitHub, ok: bool, marker: string, head: string, correlationId: string,
      body: string, creation: Creation, plan: Plan)
    requires FaultFree(plan)
    ensures AttemptReview(g, ok, marker, head, correlationId, body, creation, plan).1 == Posted
            <==> (&& ok && g.head == head
                  && (creation != Refused || FindExisting(AllHappen(g, plan.afterView), head, correlationId)))
  {
  }

  // Interference

  const QUIET := Plan(Works, [], Works, [], Works, [], Works)

  /** How many reviews match. */
  function MatchCount(reviews: seq<Review>, head: string, correlationId: string): nat {
    |Filter((r: Review) => Matches(r, head, correlationId), reviews)|
  }

  /** What others do to the reviews does not depend on the comments. */
  lemma {:induction false} ReviewsIgnoreComments(g: GitHub, h: GitHub, es: seq<Env>)
    requires g.reviews == h.reviews
    ensures AllHappen(g, es).reviews == AllHappen(h, es).reviews
    decreases es
  {
    if es != [] {
      ReviewsIgnoreComments(Happens(g, es[0]), Happens(h, es[0]), es[1..]);
    }
  }

  lemma {:induction false} AllHappenConcat(g: GitHub, a: seq<Env>, b: seq<Env>)
    ensures AllHappen(g, a + b) == AllHappen(AllHappen(g, a), b)
    decreases a
  {
    if a == [] {
      assert a + b == b;
    } else {
      assert (a + b)[1..] == a[1..] + b;
      AllHappenConcat(Happens(g, a[0]), a[1..], b);
    }
  }

  /** Everything others do during an attempt. */
  function Interference(plan: Plan): seq<Env> {
    plan.afterView + plan.afterList + plan.afterComment
  }

  /** The reviews after an attempt that nothing fails, whatever others do in its windows: theirs, and one more
      exactly if the listing found none. */
  lemma ReviewsAfterAttempt(g: GitHub, marker: string, head: string, correlationId: string, body: string, r: Review,
      plan: Plan)
    requires FaultFree(plan) && g.head == head && marker != ""
    ensures var g' := AttemptReview(g, true, marker, head, correlationId, body, Adds(r), plan).0;
            g'.reviews == AllHappen(g, Interference(plan)).reviews
                          + (if FindExisting(AllHappen(g, plan.afterView), head, correlationId) then [] else [r])
  {
    hide FindExisting, FirstWithMarker, PersistedBody, AllHappen;
    var g1 := AllHappen(g, plan.afterView);
    var g2 := AllHappen(g1, plan.afterList);
    var g3 := CreateOrUpdate(g2, body, marker);
    ReviewsIgnoreComments(g3, g2, plan.afterComment);
    AllHappenConcat(g, plan.afterView, plan.afterList);
    AllHappenConcat(g, plan.afterView + plan.afterList, plan.afterComment);
  }

  /** At most one review survives interference exactly as far as others go along: for an attempt that nothing
      fails and that finds no listed match, the number of matching reviews afterwards is one more than others alone
      would have left, so there is exactly one if and only if nobody else's matches, in any window. */
  lemma AttemptUnderInterference(g: GitHub, site: Site, body: string, review: ReviewPayload, plan: Plan)
    requires site.Ok() && g.head == review.headSha && Strip(review.headSha) != "" && FaultFree(plan)
    requires ForSubmission(review, site.correlationId).Success?
    ensures var head, id := review.headSha, site.correlationId;
            var theirs := MatchCount(AllHappen(g, Interference(plan)).reviews, head, id);
            var all := MatchCount(Attempt(g, site, body, Some(review), plan).0.reviews, head, id);
            var found := FindExisting(AllHappen(g, plan.afterView), head, id);
            && all == theirs + (if found then 0 else 1)
            && (!found ==> (all == 1 <==> theirs == 0))
  {
    MarkerIsNotBlank(site);
    var c := AttemptIs(g, site, body, review, plan);
    hide Attempt, AttemptReview, ForSubmission, TargetOk, CommentMarker, FindExisting, Strip, Matches, AllHappen;
    ReviewsAfterAttempt(g, site.Marker(), review.headSha, site.correlationId, body, c.review, plan);
    MatchesAppended(AllHappen(g, Interference(plan)).reviews, c.review, review.headSha, site.correlationId);
    assert AllHappen(g, Interference(plan)).reviews + [] == AllHappen(g, Interference(plan)).reviews;
  }

  lemma MatchesAppended(reviews: seq<Review>, r: Review, head: string, correlationId: string)
    requires Matches(r, head, correlationId)
    ensures MatchCount(reviews + [r], head, correlationId) == MatchCount(reviews, head, correlationId) + 1
  {
    hide Matches;
    FilterAppend((x: Review) => Matches(x, head, correlationId), reviews, [r]);
  }

  /** For one, a matching review that appears between the listing and the creation makes two. */
  lemma ConcurrentAttemptsDuplicate(g: GitHub, site: Site, body: string, review: ReviewPayload)
    requires site.Ok() && g.head == review.headSha && Strip(review.headSha) != ""
    requires ForSubmission(review, site.correlationId).Success?
    requires !FindExisting(g, review.headSha, site.correlationId)
    ensures var text := ForSubmission(review, site.correlationId).value.body;
            var plan := QUIET.(afterList := [OtherReview(text, review.headSha)]);
            var (g', o) := Attempt(g, site, body, Some(review), plan);
            && o == Posted && |g'.reviews| == |g.reviews| + 2
            && (forall i :: |g.reviews| <= i < |g'.reviews| ==> Matches(g'.reviews[i], review.headSha, site.correlationId))
  {
    var text := ForSubmission(review, site.correlationId).value.body;
    var plan := QUIET.(afterList := [OtherReview(text, review.headSha)]);
    var c := AttemptIs(g, site, body, review, plan);
    ConcurrentOnce(g, site.Marker(), review.headSha, site.correlationId, body, c.review, text);
  }

  lemma ConcurrentOnce(g: GitHub, marker: string, head: string, correlationId: string, body: string, r: Review,
      text: string)
    requires g.head == head && r.body == text && Matches(r, head, correlationId)
    requires !FindExisting(g, head, correlationId)
    ensures var plan := QUIET.(afterList := [OtherReview(text, head)]);
            var (g', o) := AttemptReview(g, true, marker, head, correlationId, body, Adds(r), plan);
            && o == Posted && g'.reviews == g.reviews + [Review(text, head, false), r]
  {
    var e := OtherReview(text, head);
    var g1 := Happens(g, e);
    assert AllHappen(g, []) == g;
    assert [e][1..] == [];
    assert AllHappen(g, [e]) == AllHappen(g1, []) == g1;
    var g2 := CreateOrUpdate(g1, body, marker);
    assert AllHappen(g2, []) == g2;
  }
}
