/** Any number of posters at once, call by call: view the head, list the reviews, list the comments, write the
    comment, create the review. All aim at the same pull request, head and correlation id; calls of different
    posters, failures and other users' activity interleave in any order. */
module PublishingRaces {
  import opened Basics
  import opened Text
  import opened Publishing
  import opened PublishingRuns

  /** The marker of the summary comment, the reviewed head and the correlation id. */
  datatype Aim = Aim(marker: string, head: string, correlationId: string)

  /** What one poster is about to write. */
  datatype Draft = Draft(body: string, review: Review)

  /** The next call of a poster, with what it remembers; the comment call lists before it writes. */
  datatype Pc =
    | ToView
    | ToList
    | ToSearch(create: bool)
    | ToWrite(create: bool, found: Option<nat>)
    | ToCreate
    | Done
    | Stopped

  /** History: who listed the reviews, who created one and at which position, and the same for comments. */
  datatype Mark = Listing(w: nat) | Created(w: nat, at: nat) | Searching(w: nat) | Commented(w: nat, at: nat)

  datatype System = System(g: GitHub, pcs: seq<Pc>, marks: seq<Mark>)

  datatype Step = Call(w: nat, fault: Fault) | Other(e: Env)

  predicate Enabled(s: System, step: Step) {
    step.Call? ==> step.w < |s.pcs| && s.pcs[step.w] != Done && s.pcs[step.w] != Stopped
  }

  function Goto(s: System, w: nat, pc: Pc): System
    requires w < |s.pcs|
  {
    s.(pcs := s.pcs[w := pc])
  }

  /** The second half of the comment call: an update of the comment found, or a new comment. */
  function WriteComment(s: System, w: nat, found: Option<nat>, body: string, marker: string): System {
    var persisted := PersistedBody(body, marker);
    match found
    case None =>
      s.(g := s.g.(comments := s.g.comments + [Comment(persisted, true)]),
         marks := s.marks + [Commented(w, |s.g.comments|)])
    case Some(i) =>
      if i < |s.g.comments|
      then s.(g := s.g.(comments := s.g.comments[i := s.g.comments[i].(body := persisted)]))
      else s
  }

  function AddReview(s: System, w: nat, r: Review): System {
    s.(g := s.g.(reviews := s.g.reviews + [r]), marks := s.marks + [Created(w, |s.g.reviews|)])
  }

  function Apply(aim: Aim, drafts: seq<Draft>, s: System, step: Step): (r: System)
    requires |drafts| == |s.pcs| && Enabled(s, step)
    ensures |r.pcs| == |s.pcs|
  {
    match step
    case Other(e) => s.(g := Happens(s.g, e))
    case Call(w, fault) =>
      match s.pcs[w]
      case ToView => Goto(s, w, if fault == Works && s.g.head == aim.head then ToList else Stopped)
      case ToList =>
        if fault != Works then Goto(s, w, Stopped)
        else Goto(s, w, ToSearch(!FindExisting(s.g, aim.head, aim.correlationId))).(marks := s.marks + [Listing(w)])
      case ToSearch(create) =>
        if fault != Works then Goto(s, w, Stopped)
        else Goto(s, w, ToWrite(create, FirstWithMarker(Listed(s.g.comments), aim.marker)))
               .(marks := s.marks + [Searching(w)])
      case ToWrite(create, found) =>
        if fault == FailsBefore then Goto(s, w, Stopped)
        else Goto(WriteComment(s, w, found, drafts[w].body, aim.marker), w,
                  if fault == FailsAfter then Stopped else if create then ToCreate else Done)
      case ToCreate =>
        if fault == FailsBefore then Goto(s, w, Stopped)
        else Goto(AddReview(s, w, drafts[w].review), w, if fault == FailsAfter then Stopped else Done)
      case _ => s
  }

  predicate Legal(aim: Aim, drafts: seq<Draft>, s: System, steps: seq<Step>)
    requires |drafts| == |s.pcs|
    decreases steps
  {
    steps == [] || (Enabled(s, steps[0]) && Legal(aim, drafts, Apply(aim, drafts, s, steps[0]), steps[1..]))
  }

  function Exec(aim: Aim, drafts: seq<Draft>, s: System, steps: seq<Step>): (r: System)
    requires |drafts| == |s.pcs| && Legal(aim, drafts, s, steps)
    ensures |r.pcs| == |s.pcs|
    decreases steps
  {
    if steps == [] then s else Exec(aim, drafts, Apply(aim, drafts, s, steps[0]), steps[1..])
  }

  // What the history says

  /** `w` listed the reviews before anyone created one within the reach of a listing. */
  ghost predicate ListedFirst(marks: seq<Mark>, w: nat) {
    exists k :: 0 <= k < |marks| && marks[k] == Listing(w)
                && forall j :: 0 <= j < k && marks[j].Created? ==> marks[j].at >= LIST_CAP
  }

  /** `w` listed the comments before anyone created one within the reach of a listing. */
  ghost predicate SearchedFirst(marks: seq<Mark>, w: nat) {
    exists k :: 0 <= k < |marks| && marks[k] == Searching(w)
                && forall j :: 0 <= j < k && marks[j].Commented? ==> marks[j].at >= LIST_CAP
  }

  ghost predicate Creates(marks: seq<Mark>, w: nat) {
    exists at :: Created(w, at) in marks
  }

  ghost predicate Comments(marks: seq<Mark>, w: nat) {
    exists at :: Commented(w, at) in marks
  }

  // Invariants

  /** The matching reviews are exactly those the posters created. */
  ghost predicate ReviewsAreOurs(aim: Aim, s: System) {
    && (forall i :: 0 <= i < |s.g.reviews| && Matches(s.g.reviews[i], aim.head, aim.correlationId) ==>
          exists w :: Created(w, i) in s.marks)
    && (forall m <- s.marks :: m.Created? ==>
          m.at < |s.g.reviews| && Matches(s.g.reviews[m.at], aim.head, aim.correlationId))
    && (forall j, k :: 0 <= j < k < |s.marks| && s.marks[j].Created? && s.marks[k].Created? ==>
          s.marks[j].at < s.marks[k].at)
  }

  /** The marked comments are exactly those the posters created. */
  ghost predicate CommentsAreOurs(aim: Aim, s: System) {
    && (forall i :: 0 <= i < |s.g.comments| && Contains(s.g.comments[i].body, aim.marker) ==>
          exists w :: Commented(w, i) in s.marks)
    && (forall m <- s.marks :: m.Commented? ==>
          m.at < |s.g.comments| && Contains(s.g.comments[m.at].body, aim.marker))
    && (forall j, k :: 0 <= j < k < |s.marks| && s.marks[j].Commented? && s.marks[k].Commented? ==>
          s.marks[j].at < s.marks[k].at)
  }

  /** Where a poster stands, by what it has listed and created. */
  ghost predicate ReviewOk(marks: seq<Mark>, w: nat, pc: Pc) {
    match pc
    case ToView => Listing(w) !in marks && !Creates(marks, w)
    case ToList => Listing(w) !in marks && !Creates(marks, w)
    case ToSearch(create) => Listing(w) in marks && (create <==> ListedFirst(marks, w)) && !Creates(marks, w)
    case ToWrite(create, _) => Listing(w) in marks && (create <==> ListedFirst(marks, w)) && !Creates(marks, w)
    case ToCreate => Listing(w) in marks && ListedFirst(marks, w) && !Creates(marks, w)
    case Done => Listing(w) in marks && (Creates(marks, w) <==> ListedFirst(marks, w))
    case Stopped => Creates(marks, w) ==> ListedFirst(marks, w)
  }

  ghost predicate CommentOk(marks: seq<Mark>, w: nat, pc: Pc) {
    match pc
    case ToView => Searching(w) !in marks && !Comments(marks, w)
    case ToList => Searching(w) !in marks && !Comments(marks, w)
    case ToSearch(_) => Searching(w) !in marks && !Comments(marks, w)
    case ToWrite(_, found) =>
      Searching(w) in marks && (found.None? <==> SearchedFirst(marks, w)) && !Comments(marks, w)
    case ToCreate => Searching(w) in marks && (Comments(marks, w) <==> SearchedFirst(marks, w))
    case Done => Searching(w) in marks && (Comments(marks, w) <==> SearchedFirst(marks, w))
    case Stopped => Comments(marks, w) ==> SearchedFirst(marks, w)
  }

  /** A comment that was found is still there. */
  ghost predicate FoundOk(aim: Aim, s: System, pc: Pc) {
    pc.ToWrite? && pc.found.Some? ==>
      pc.found.value < |s.g.comments| && Contains(s.g.comments[pc.found.value].body, aim.marker)
  }

  ghost predicate Inv(aim: Aim, drafts: seq<Draft>, s: System) {
    && |drafts| == |s.pcs| && aim.marker != ""
    && (forall d <- drafts :: Matches(d.review, aim.head, aim.correlationId))
    && ReviewsAreOurs(aim, s) && CommentsAreOurs(aim, s)
    && (forall w :: 0 <= w < |s.pcs| ==>
          ReviewOk(s.marks, w, s.pcs[w]) && CommentOk(s.marks, w, s.pcs[w]) && FoundOk(aim, s, s.pcs[w]))
  }

  /** Other users write neither the marker nor a matching review. */
  predicate Unrelated(aim: Aim, e: Env) {
    match e
    case Push(_) => true
    case OtherComment(body) => !Contains(body, aim.marker)
    case OtherReview(body, commitId) => !(commitId == aim.head && Contains(body, aim.correlationId))
  }

  /** One more mark leaves alone what was known about posters it is not about. */
  lemma MarkIsForeign(marks: seq<Mark>, m: Mark, w: nat)
    ensures m != Listing(w) ==> (ListedFirst(marks + [m], w) <==> ListedFirst(marks, w))
    ensures m != Searching(w) ==> (SearchedFirst(marks + [m], w) <==> SearchedFirst(marks, w))
    ensures !(m.Created? && m.w == w) ==> (Creates(marks + [m], w) <==> Creates(marks, w))
    ensures !(m.Commented? && m.w == w) ==> (Comments(marks + [m], w) <==> Comments(marks, w))
    ensures forall x :: x in marks + [m] <==> x in marks || x == m
  {
    var more := marks + [m];
    assert forall k :: 0 <= k < |marks| ==> more[k] == marks[k];
    if ListedFirst(marks, w) {
      var k :| 0 <= k < |marks| && marks[k] == Listing(w)
               && forall j :: 0 <= j < k && marks[j].Created? ==> marks[j].at >= LIST_CAP;
      assert more[k] == Listing(w);
    }
    if SearchedFirst(marks, w) {
      var k :| 0 <= k < |marks| && marks[k] == Searching(w)
               && forall j :: 0 <= j < k && marks[j].Commented? ==> marks[j].at >= LIST_CAP;
      assert more[k] == Searching(w);
    }
    if at :| Created(w, at) in marks {
      assert Created(w, at) in more;
    }
    if at :| Commented(w, at) in marks {
      assert Commented(w, at) in more;
    }
  }

  /** A first listing comes before every creation within reach exactly if there has been none so far. */
  lemma NewListing(marks: seq<Mark>, w: nat)
    requires Listing(w) !in marks
    ensures ListedFirst(marks + [Listing(w)], w) <==> forall m <- marks :: m.Created? ==> m.at >= LIST_CAP
  {
    var more := marks + [Listing(w)];
    assert more[|marks|] == Listing(w);
    assert forall k :: 0 <= k < |marks| ==> more[k] == marks[k] && marks[k] in marks;
  }

  lemma NewSearching(marks: seq<Mark>, w: nat)
    requires Searching(w) !in marks
    ensures SearchedFirst(marks + [Searching(w)], w) <==> forall m <- marks :: m.Commented? ==> m.at >= LIST_CAP
  {
    var more := marks + [Searching(w)];
    assert more[|marks|] == Searching(w);
    assert forall k :: 0 <= k < |marks| ==> more[k] == marks[k] && marks[k] in marks;
  }

  /** The listing shows a matching review exactly if a poster created one within reach. */
  lemma FoundIffCreated(aim: Aim, s: System)
    requires ReviewsAreOurs(aim, s)
    ensures FindExisting(s.g, aim.head, aim.correlationId) <==> !forall m <- s.marks :: m.Created? ==> m.at >= LIST_CAP
  {
    hide Matches;
    if FindExisting(s.g, aim.head, aim.correlationId) {
      var r :| r in Listed(s.g.reviews) && Matches(r, aim.head, aim.correlationId);
      var i :| 0 <= i < |Listed(s.g.reviews)| && Listed(s.g.reviews)[i] == r;
      var w :| Created(w, i) in s.marks;
    }
    if m :| m in s.marks && m.Created? && m.at < LIST_CAP {
      ListedAt(s.g.reviews, m.at);
    }
  }

  lemma SearchedIffCommented(aim: Aim, s: System)
    requires CommentsAreOurs(aim, s)
    ensures FirstWithMarker(Listed(s.g.comments), aim.marker).None?
            <==> forall m <- s.marks :: m.Commented? ==> m.at >= LIST_CAP
  {
    hide Contains;
    match FirstWithMarker(Listed(s.g.comments), aim.marker)
    case Some(i) =>
      var w :| Commented(w, i) in s.marks;
    case None =>
      forall m | m in s.marks && m.Commented? ensures m.at >= LIST_CAP {
        if m.at < LIST_CAP {
          ListedAt(s.g.comments, m.at);
        }
      }
  }

  /** No comment is lost and none loses the marker. */
  ghost predicate MarkersStay(aim: Aim, g: GitHub, g': GitHub) {
    && |g.comments| <= |g'.comments|
    && (forall i :: 0 <= i < |g.comments| && Contains(g.comments[i].body, aim.marker) ==>
          Contains(g'.comments[i].body, aim.marker))
  }

  /** What a step of `w` may do to the history. */
  ghost predicate Marks(marks: seq<Mark>, marks': seq<Mark>, w: nat) {
    marks' == marks || (exists m: Mark :: m.w == w && marks' == marks + [m])
  }

  /** A step of one poster leaves the others where they are. */
  lemma OthersStay(aim: Aim, drafts: seq<Draft>, s: System, s': System, w: nat, v: nat)
    requires Inv(aim, drafts, s) && w < |s.pcs| && v < |s.pcs| && v != w
    requires |s'.pcs| == |s.pcs| && s'.pcs == s.pcs[w := s'.pcs[w]] && Marks(s.marks, s'.marks, w)
    requires MarkersStay(aim, s.g, s'.g)
    ensures ReviewOk(s'.marks, v, s'.pcs[v]) && CommentOk(s'.marks, v, s'.pcs[v]) && FoundOk(aim, s', s'.pcs[v])
  {
    hide Contains, ListedFirst, SearchedFirst, Creates, Comments, ReviewsAreOurs, CommentsAreOurs;
    assert s'.pcs[v] == s.pcs[v];
    if s'.marks != s.marks {
      var m: Mark :| m.w == w && s'.marks == s.marks + [m];
      MarkIsForeign(s.marks, m, v);
    }
  }

  /** The invariant after a step of `w`, once its own part and the two correspondences hold. */
  lemma InvFrom(aim: Aim, drafts: seq<Draft>, s: System, s': System, w: nat)
    requires Inv(aim, drafts, s) && w < |s.pcs|
    requires |s'.pcs| == |s.pcs| && s'.pcs == s.pcs[w := s'.pcs[w]] && Marks(s.marks, s'.marks, w)
    requires MarkersStay(aim, s.g, s'.g)
    requires ReviewsAreOurs(aim, s') && CommentsAreOurs(aim, s')
    requires ReviewOk(s'.marks, w, s'.pcs[w]) && CommentOk(s'.marks, w, s'.pcs[w]) && FoundOk(aim, s', s'.pcs[w])
    ensures Inv(aim, drafts, s')
  {
    hide ReviewOk, CommentOk, FoundOk, ReviewsAreOurs, CommentsAreOurs, Marks, MarkersStay, Matches;
    forall v | 0 <= v < |s'.pcs|
      ensures ReviewOk(s'.marks, v, s'.pcs[v]) && CommentOk(s'.marks, v, s'.pcs[v]) && FoundOk(aim, s', s'.pcs[v])
    {
      if v != w {
        OthersStay(aim, drafts, s, s', w, v);
      }
    }
  }

  /** A listing mark changes nothing in the correspondences. */
  lemma ListingMark(aim: Aim, s: System, s': System, m: Mark)
    requires ReviewsAreOurs(aim, s) && CommentsAreOurs(aim, s)
    requires s'.g == s.g && s'.marks == s.marks + [m] && (m.Listing? || m.Searching?)
    ensures ReviewsAreOurs(aim, s') && CommentsAreOurs(aim, s')
  {
    hide Contains, Matches;
    forall i | 0 <= i < |s.g.reviews| && Matches(s.g.reviews[i], aim.head, aim.correlationId)
      ensures exists w :: Created(w, i) in s'.marks
    {
      var w :| Created(w, i) in s.marks;
      assert Created(w, i) in s'.marks;
    }
    forall i | 0 <= i < |s.g.comments| && Contains(s.g.comments[i].body, aim.marker)
      ensures exists w :: Commented(w, i) in s'.marks
    {
      var w :| Commented(w, i) in s.marks;
      assert Commented(w, i) in s'.marks;
    }
  }

  lemma ViewKeepsInv(aim: Aim, drafts: seq<Draft>, s: System, w: nat, pc: Pc)
    requires Inv(aim, drafts, s) && w < |s.pcs|
    requires (s.pcs[w].ToView? && pc.ToList?) || pc.Stopped?
    requires s.pcs[w] != Done && s.pcs[w] != Stopped
    ensures Inv(aim, drafts, Goto(s, w, pc))
  {
    hide Matches, Contains, ListedFirst, SearchedFirst, ReviewsAreOurs, CommentsAreOurs;
    var s' := Goto(s, w, pc);
    assert ReviewOk(s.marks, w, s.pcs[w]) && CommentOk(s.marks, w, s.pcs[w]);
    SameGitHub(aim, s, s');
    InvFrom(aim, drafts, s, s', w);
  }

  lemma SameGitHub(aim: Aim, s: System, s': System)
    requires s'.g == s.g && s'.marks == s.marks
    ensures ReviewsAreOurs(aim, s) ==> ReviewsAreOurs(aim, s')
    ensures CommentsAreOurs(aim, s) ==> CommentsAreOurs(aim, s')
    ensures MarkersStay(aim, s.g, s'.g)
  {
  }

  lemma ListKeepsInv(aim: Aim, drafts: seq<Draft>, s: System, w: nat)
    requires Inv(aim, drafts, s) && w < |s.pcs| && s.pcs[w].ToList?
    ensures Inv(aim, drafts, Apply(aim, drafts, s, Call(w, Works)))
  {
    hide Matches, Contains, FindExisting, ListedFirst, SearchedFirst, Creates, Comments, ReviewsAreOurs, CommentsAreOurs;
    var s', m := Apply(aim, drafts, s, Call(w, Works)), Listing(w);
    assert ReviewOk(s.marks, w, s.pcs[w]) && CommentOk(s.marks, w, s.pcs[w]);
    ListingMark(aim, s, s', m);
    FoundIffCreated(aim, s);
    NewListing(s.marks, w);
    MarkIsForeign(s.marks, m, w);
    assert Marks(s.marks, s'.marks, w);
    InvFrom(aim, drafts, s, s', w);
  }

  lemma SearchKeepsInv(aim: Aim, drafts: seq<Draft>, s: System, w: nat)
    requires Inv(aim, drafts, s) && w < |s.pcs| && s.pcs[w].ToSearch?
    ensures Inv(aim, drafts, Apply(aim, drafts, s, Call(w, Works)))
  {
    hide Matches, Contains, ListedFirst, SearchedFirst, Creates, Comments, ReviewsAreOurs, CommentsAreOurs;
    var s', m := Apply(aim, drafts, s, Call(w, Works)), Searching(w);
    assert ReviewOk(s.marks, w, s.pcs[w]) && CommentOk(s.marks, w, s.pcs[w]);
    ListingMark(aim, s, s', m);
    SearchedIffCommented(aim, s);
    NewSearching(s.marks, w);
    MarkIsForeign(s.marks, m, w);
    assert Marks(s.marks, s'.marks, w);
    InvFrom(aim, drafts, s, s', w);
  }

  lemma ReviewAdded(aim: Aim, s: System, w: nat, r: Review)
    requires ReviewsAreOurs(aim, s) && CommentsAreOurs(aim, s) && Matches(r, aim.head, aim.correlationId)
    ensures var s' := AddReview(s, w, r);
            ReviewsAreOurs(aim, s') && CommentsAreOurs(aim, s') && MarkersStay(aim, s.g, s'.g)
  {
    hide Matches, Contains;
    var s' := AddReview(s, w, r);
    assert Created(w, |s.g.reviews|) in s'.marks;
    forall i | 0 <= i < |s'.g.reviews| && Matches(s'.g.reviews[i], aim.head, aim.correlationId)
      ensures exists v :: Created(v, i) in s'.marks
    {
      if i < |s.g.reviews| {
        var v :| Created(v, i) in s.marks;
        assert Created(v, i) in s'.marks;
      }
    }
    forall i | 0 <= i < |s.g.comments| && Contains(s.g.comments[i].body, aim.marker)
      ensures exists v :: Commented(v, i) in s'.marks
    {
      var v :| Commented(v, i) in s.marks;
      assert Commented(v, i) in s'.marks;
    }
  }

  lemma CreateKeepsInv(aim: Aim, drafts: seq<Draft>, s: System, w: nat, pc: Pc)
    requires Inv(aim, drafts, s) && w < |s.pcs| && s.pcs[w].ToCreate? && (pc.Done? || pc.Stopped?)
    ensures Inv(aim, drafts, Goto(AddReview(s, w, drafts[w].review), w, pc))
  {
    hide Matches, Contains, ListedFirst, SearchedFirst, ReviewsAreOurs, CommentsAreOurs;
    var s', m := Goto(AddReview(s, w, drafts[w].review), w, pc), Created(w, |s.g.reviews|);
    assert ReviewOk(s.marks, w, s.pcs[w]) && CommentOk(s.marks, w, s.pcs[w]);
    assert drafts[w] in drafts;
    ReviewAdded(aim, s, w, drafts[w].review);
    SameGitHub(aim, AddReview(s, w, drafts[w].review), s');
    MarkIsForeign(s.marks, m, w);
    assert m in s'.marks && Creates(s'.marks, w);
    assert Marks(s.marks, s'.marks, w);
    InvFrom(aim, drafts, s, s', w);
  }

  lemma CommentMark(aim: Aim, s: System, s': System, m: Mark)
    requires ReviewsAreOurs(aim, s) && s'.g.reviews == s.g.reviews
    requires s'.marks == s.marks || (m.Commented? && s'.marks == s.marks + [m])
    ensures ReviewsAreOurs(aim, s')
  {
    hide Matches;
    forall i | 0 <= i < |s.g.reviews| && Matches(s.g.reviews[i], aim.head, aim.correlationId)
      ensures exists v :: Created(v, i) in s'.marks
    {
      var v :| Created(v, i) in s.marks;
      assert Created(v, i) in s'.marks;
    }
  }

  lemma CommentWritten(aim: Aim, s: System, w: nat, found: Option<nat>, body: string)
    requires aim.marker != "" && CommentsAreOurs(aim, s)
    requires found.Some? ==>
               found.value < |s.g.comments| && Contains(s.g.comments[found.value].body, aim.marker)
    ensures var s' := WriteComment(s, w, found, body, aim.marker);
            CommentsAreOurs(aim, s') && MarkersStay(aim, s.g, s'.g)
  {
    PersistedBodyHasMarker(body, aim.marker);
    hide Contains, PersistedBody;
    var s' := WriteComment(s, w, found, body, aim.marker);
    assert s'.marks == s.marks || s'.marks == s.marks + [Commented(w, |s.g.comments|)];
    assert forall m <- s.marks :: m in s'.marks;
    assert found.None? ==> Commented(w, |s.g.comments|) in s'.marks;
    forall i | 0 <= i < |s'.g.comments| && Contains(s'.g.comments[i].body, aim.marker)
      ensures exists v :: Commented(v, i) in s'.marks
    {
      if i < |s.g.comments| {
        assert Contains(s.g.comments[i].body, aim.marker);
        var v :| Commented(v, i) in s.marks;
        assert Commented(v, i) in s'.marks;
      }
    }
  }

  lemma WriteKeepsInv(aim: Aim, drafts: seq<Draft>, s: System, w: nat, fault: Fault)
    requires Inv(aim, drafts, s) && w < |s.pcs| && s.pcs[w].ToWrite? && fault != FailsBefore
    ensures Inv(aim, drafts, Apply(aim, drafts, s, Call(w, fault)))
  {
    hide Matches, Contains, ListedFirst, SearchedFirst, ReviewsAreOurs, CommentsAreOurs, PersistedBody;
    var s', m := Apply(aim, drafts, s, Call(w, fault)), Commented(w, |s.g.comments|);
    var found := s.pcs[w].found;
    assert ReviewOk(s.marks, w, s.pcs[w]) && CommentOk(s.marks, w, s.pcs[w]) && FoundOk(aim, s, s.pcs[w]);
    CommentWritten(aim, s, w, found, drafts[w].body);
    CommentMark(aim, s, WriteComment(s, w, found, drafts[w].body, aim.marker), m);
    SameGitHub(aim, WriteComment(s, w, found, drafts[w].body, aim.marker), s');
    MarkIsForeign(s.marks, m, w);
    if found.None? {
      assert m in s'.marks && Comments(s'.marks, w);
      assert m.w == w && s'.marks == s.marks + [m];
    }
    assert Marks(s.marks, s'.marks, w);
    InvFrom(aim, drafts, s, s', w);
  }

  lemma OtherKeepsInv(aim: Aim, drafts: seq<Draft>, s: System, e: Env)
    requires Inv(aim, drafts, s) && Unrelated(aim, e)
    ensures Inv(aim, drafts, s.(g := Happens(s.g, e)))
  {
    hide Contains, ReviewOk, CommentOk;
    var s' := s.(g := Happens(s.g, e));
    forall w | 0 <= w < |s.pcs| ensures FoundOk(aim, s', s'.pcs[w]) {
      assert FoundOk(aim, s, s.pcs[w]);
    }
  }

  lemma StepKeepsInv(aim: Aim, drafts: seq<Draft>, s: System, step: Step)
    requires Inv(aim, drafts, s) && Enabled(s, step) && (step.Other? ==> Unrelated(aim, step.e))
    ensures Inv(aim, drafts, Apply(aim, drafts, s, step))
  {
    hide Inv, AddReview, WriteComment, Unrelated, FindExisting;
    match step
    case Other(e) => OtherKeepsInv(aim, drafts, s, e);
    case Call(w, fault) => CallKeepsInv(aim, drafts, s, w, fault);
  }

  lemma CallKeepsInv(aim: Aim, drafts: seq<Draft>, s: System, w: nat, fault: Fault)
    requires Inv(aim, drafts, s) && Enabled(s, Call(w, fault))
    ensures Inv(aim, drafts, Apply(aim, drafts, s, Call(w, fault)))
  {
    assert |drafts| == |s.pcs|;
    hide Inv, AddReview, WriteComment, FindExisting, FirstWithMarker;
    match s.pcs[w]
    case ToView => ViewKeepsInv(aim, drafts, s, w, if fault == Works && s.g.head == aim.head then ToList else Stopped);
    case ToList =>
      if fault == Works {
        ListKeepsInv(aim, drafts, s, w);
      } else {
        ViewKeepsInv(aim, drafts, s, w, Stopped);
      }
    case ToSearch(_) =>
      if fault == Works {
        SearchKeepsInv(aim, drafts, s, w);
      } else {
        ViewKeepsInv(aim, drafts, s, w, Stopped);
      }
    case ToWrite(_, _) =>
      if fault == FailsBefore {
        ViewKeepsInv(aim, drafts, s, w, Stopped);
      } else {
        WriteKeepsInv(aim, drafts, s, w, fault);
      }
    case ToCreate =>
      if fault == FailsBefore {
        ViewKeepsInv(aim, drafts, s, w, Stopped);
      } else {
        CreateKeepsInv(aim, drafts, s, w, if fault == FailsAfter then Stopped else Done);
      }
  }

  lemma {:induction false} RunKeepsInv(aim: Aim, drafts: seq<Draft>, s: System, steps: seq<Step>)
    requires Inv(aim, drafts, s) && Legal(aim, drafts, s, steps)
    requires forall x <- steps :: x.Other? ==> Unrelated(aim, x.e)
    ensures Inv(aim, drafts, Exec(aim, drafts, s, steps))
    decreases steps
  {
    assert |drafts| == |s.pcs|;
    hide Inv, Unrelated, Apply;
    if steps != [] {
      StepKeepsInv(aim, drafts, s, steps[0]);
      RunKeepsInv(aim, drafts, Apply(aim, drafts, s, steps[0]), steps[1..]);
    }
  }

  // Who creates

  /** Nobody has started, and neither a matching review nor a marked comment is there. The client refuses every review
      on a blank commit. */
  ghost predicate Fresh(aim: Aim, drafts: seq<Draft>, s: System) {
    && |drafts| == |s.pcs| && aim.marker != "" && Strip(aim.head) != "" && s.marks == []
    && (forall pc <- s.pcs :: pc.ToView?)
    && (forall d <- drafts :: Matches(d.review, aim.head, aim.correlationId))
    && (forall r <- s.g.reviews :: !Matches(r, aim.head, aim.correlationId))
    && (forall c <- s.g.comments :: !Contains(c.body, aim.marker))
  }

  lemma FreshIsInv(aim: Aim, drafts: seq<Draft>, s: System)
    requires Fresh(aim, drafts, s)
    ensures Inv(aim, drafts, s)
  {
    hide Matches, Contains;
    assert forall i :: 0 <= i < |s.g.reviews| ==> s.g.reviews[i] in s.g.reviews;
    assert forall i :: 0 <= i < |s.g.comments| ==> s.g.comments[i] in s.g.comments;
    forall w | 0 <= w < |s.pcs| ensures s.pcs[w].ToView? {
      assert s.pcs[w] in s.pcs;
    }
  }

  /** Under every interleaving of any number of posters, with failures anywhere: a poster that finishes created a
      review exactly if it listed the reviews before anyone had created one within the reach of the listing, and a
      comment exactly if it listed the comments before; a poster that stopped created none otherwise. */
  lemma CreatesIffListedFirst(aim: Aim, drafts: seq<Draft>, s: System, steps: seq<Step>, w: nat)
    requires Fresh(aim, drafts, s) && Legal(aim, drafts, s, steps) && w < |s.pcs|
    requires forall x <- steps :: x.Other? ==> Unrelated(aim, x.e)
    ensures var s' := Exec(aim, drafts, s, steps);
            && (s'.pcs[w].Done? ==> (Creates(s'.marks, w) <==> ListedFirst(s'.marks, w)))
            && (s'.pcs[w].Done? ==> (Comments(s'.marks, w) <==> SearchedFirst(s'.marks, w)))
            && (Creates(s'.marks, w) ==> ListedFirst(s'.marks, w))
            && (Comments(s'.marks, w) ==> SearchedFirst(s'.marks, w))
  {
    hide ListedFirst, SearchedFirst, Creates, Comments, Legal, Fresh;
    FreshIsInv(aim, drafts, s);
    RunKeepsInv(aim, drafts, s, steps);
    var s' := Exec(aim, drafts, s, steps);
    assert ReviewOk(s'.marks, w, s'.pcs[w]) && CommentOk(s'.marks, w, s'.pcs[w]);
  }

  /** `w` listed the reviews before anyone created one. */
  ghost predicate ListedBeforeAll(marks: seq<Mark>, w: nat) {
    exists k :: 0 <= k < |marks| && marks[k] == Listing(w) && forall j :: 0 <= j < k ==> !marks[j].Created?
  }

  /** `w` listed the comments before anyone created one. */
  ghost predicate SearchedBeforeAll(marks: seq<Mark>, w: nat) {
    exists k :: 0 <= k < |marks| && marks[k] == Searching(w) && forall j :: 0 <= j < k ==> !marks[j].Commented?
  }

  lemma WithinReach(marks: seq<Mark>, w: nat)
    requires forall m <- marks :: m.Created? ==> m.at < LIST_CAP
    ensures ListedFirst(marks, w) <==> ListedBeforeAll(marks, w)
  {
    assert forall j :: 0 <= j < |marks| ==> marks[j] in marks;
    if ListedFirst(marks, w) {
      var k :| 0 <= k < |marks| && marks[k] == Listing(w)
               && forall j :: 0 <= j < k && marks[j].Created? ==> marks[j].at >= LIST_CAP;
      assert forall j :: 0 <= j < k ==> !marks[j].Created?;
    }
  }

  lemma CommentsWithinReach(marks: seq<Mark>, w: nat)
    requires forall m <- marks :: m.Commented? ==> m.at < LIST_CAP
    ensures SearchedFirst(marks, w) <==> SearchedBeforeAll(marks, w)
  {
    assert forall j :: 0 <= j < |marks| ==> marks[j] in marks;
    if SearchedFirst(marks, w) {
      var k :| 0 <= k < |marks| && marks[k] == Searching(w)
               && forall j :: 0 <= j < k && marks[j].Commented? ==> marks[j].at >= LIST_CAP;
      assert forall j :: 0 <= j < k ==> !marks[j].Commented?;
    }
  }

  /** `u` and `w` each created a matching review, at different places. */
  ghost predicate TwoReviews(aim: Aim, s: System, u: nat, w: nat) {
    exists i: nat, j: nat ::
      && Created(u, i) in s.marks && Created(w, j) in s.marks && i != j
      && i < |s.g.reviews| && Matches(s.g.reviews[i], aim.head, aim.correlationId)
      && j < |s.g.reviews| && Matches(s.g.reviews[j], aim.head, aim.correlationId)
  }

  /** `u` and `w` each created a comment with the marker, at different places. */
  ghost predicate TwoComments(aim: Aim, s: System, u: nat, w: nat) {
    exists i: nat, j: nat ::
      && Commented(u, i) in s.marks && Commented(w, j) in s.marks && i != j
      && i < |s.g.comments| && Contains(s.g.comments[i].body, aim.marker)
      && j < |s.g.comments| && Contains(s.g.comments[j].body, aim.marker)
  }

  lemma TwoReviewsIff(aim: Aim, s: System, u: nat, w: nat)
    requires ReviewsAreOurs(aim, s) && u != w
    ensures TwoReviews(aim, s, u, w) <==> Creates(s.marks, u) && Creates(s.marks, w)
  {
    hide Matches;
    if Creates(s.marks, u) && Creates(s.marks, w) {
      var i :| Created(u, i) in s.marks;
      var j :| Created(w, j) in s.marks;
      var a :| 0 <= a < |s.marks| && s.marks[a] == Created(u, i);
      var b :| 0 <= b < |s.marks| && s.marks[b] == Created(w, j);
      assert a < b || b < a;
    }
  }

  lemma TwoCommentsIff(aim: Aim, s: System, u: nat, w: nat)
    requires CommentsAreOurs(aim, s) && u != w
    ensures TwoComments(aim, s, u, w) <==> Comments(s.marks, u) && Comments(s.marks, w)
  {
    hide Contains;
    if Comments(s.marks, u) && Comments(s.marks, w) {
      var i :| Commented(u, i) in s.marks;
      var j :| Commented(w, j) in s.marks;
      var a :| 0 <= a < |s.marks| && s.marks[a] == Commented(u, i);
      var b :| 0 <= b < |s.marks| && s.marks[b] == Commented(w, j);
      assert a < b || b < a;
    }
  }

  /** Two of the posters, both finished: both created a review, so that there are two, exactly if both listed the
      reviews before anyone had created one within the reach of a listing. While at most 3000 reviews are there, that
      means before anyone had created one at all. */
  lemma BothCreateIff(aim: Aim, drafts: seq<Draft>, s: System, steps: seq<Step>, u: nat, w: nat)
    requires Fresh(aim, drafts, s) && Legal(aim, drafts, s, steps) && u < |s.pcs| && w < |s.pcs| && u != w
    requires forall x <- steps :: x.Other? ==> Unrelated(aim, x.e)
    requires Exec(aim, drafts, s, steps).pcs[u].Done? && Exec(aim, drafts, s, steps).pcs[w].Done?
    ensures var s' := Exec(aim, drafts, s, steps);
            && (TwoReviews(aim, s', u, w) <==> ListedFirst(s'.marks, u) && ListedFirst(s'.marks, w))
            && (|s'.g.reviews| <= LIST_CAP ==>
                  (TwoReviews(aim, s', u, w) <==> ListedBeforeAll(s'.marks, u) && ListedBeforeAll(s'.marks, w)))
  {
    var s' := Exec(aim, drafts, s, steps);
    CreatesIffListedFirst(aim, drafts, s, steps, u);
    CreatesIffListedFirst(aim, drafts, s, steps, w);
    FreshIsInv(aim, drafts, s);
    RunKeepsInv(aim, drafts, s, steps);
    hide *;
    BothFrom(aim, drafts, s', u, w);
  }

  lemma BothFrom(aim: Aim, drafts: seq<Draft>, s: System, u: nat, w: nat)
    requires Inv(aim, drafts, s) && u != w
    requires Creates(s.marks, u) <==> ListedFirst(s.marks, u)
    requires Creates(s.marks, w) <==> ListedFirst(s.marks, w)
    ensures TwoReviews(aim, s, u, w) <==> ListedFirst(s.marks, u) && ListedFirst(s.marks, w)
    ensures |s.g.reviews| <= LIST_CAP ==>
              (TwoReviews(aim, s, u, w) <==> ListedBeforeAll(s.marks, u) && ListedBeforeAll(s.marks, w))
  {
    hide ListedFirst, ListedBeforeAll, Creates, TwoReviews, Matches, CommentsAreOurs, ReviewOk, CommentOk;
    TwoReviewsIff(aim, s, u, w);
    if |s.g.reviews| <= LIST_CAP {
      WithinReach(s.marks, u);
      WithinReach(s.marks, w);
    }
  }

  /** And both created a summary comment exactly if both listed the comments before anyone had created one within the
      reach of a listing. */
  lemma BothCommentIff(aim: Aim, drafts: seq<Draft>, s: System, steps: seq<Step>, u: nat, w: nat)
    requires Fresh(aim, drafts, s) && Legal(aim, drafts, s, steps) && u < |s.pcs| && w < |s.pcs| && u != w
    requires forall x <- steps :: x.Other? ==> Unrelated(aim, x.e)
    requires Exec(aim, drafts, s, steps).pcs[u].Done? && Exec(aim, drafts, s, steps).pcs[w].Done?
    ensures var s' := Exec(aim, drafts, s, steps);
            && (TwoComments(aim, s', u, w) <==> SearchedFirst(s'.marks, u) && SearchedFirst(s'.marks, w))
            && (|s'.g.comments| <= LIST_CAP ==>
                  (TwoComments(aim, s', u, w)
                   <==> SearchedBeforeAll(s'.marks, u) && SearchedBeforeAll(s'.marks, w)))
  {
    var s' := Exec(aim, drafts, s, steps);
    CreatesIffListedFirst(aim, drafts, s, steps, u);
    CreatesIffListedFirst(aim, drafts, s, steps, w);
    FreshIsInv(aim, drafts, s);
    RunKeepsInv(aim, drafts, s, steps);
    hide *;
    BothCommentFrom(aim, drafts, s', u, w);
  }

  lemma BothCommentFrom(aim: Aim, drafts: seq<Draft>, s: System, u: nat, w: nat)
    requires Inv(aim, drafts, s) && u != w
    requires Comments(s.marks, u) <==> SearchedFirst(s.marks, u)
    requires Comments(s.marks, w) <==> SearchedFirst(s.marks, w)
    ensures TwoComments(aim, s, u, w) <==> SearchedFirst(s.marks, u) && SearchedFirst(s.marks, w)
    ensures |s.g.comments| <= LIST_CAP ==>
              (TwoComments(aim, s, u, w) <==> SearchedBeforeAll(s.marks, u) && SearchedBeforeAll(s.marks, w))
  {
    hide SearchedFirst, SearchedBeforeAll, Comments, TwoComments, Contains, ReviewsAreOurs, ReviewOk, CommentOk;
    TwoCommentsIff(aim, s, u, w);
    if |s.g.comments| <= LIST_CAP {
      CommentsWithinReach(s.marks, u);
      CommentsWithinReach(s.marks, w);
    }
  }

  lemma {:induction false} ExecConcat(aim: Aim, drafts: seq<Draft>, s: System, a: seq<Step>, b: seq<Step>)
    requires |drafts| == |s.pcs| && Legal(aim, drafts, s, a)
    requires Legal(aim, drafts, Exec(aim, drafts, s, a), b)
    ensures Legal(aim, drafts, s, a + b)
    ensures Exec(aim, drafts, s, a + b) == Exec(aim, drafts, Exec(aim, drafts, s, a), b)
    decreases a
  {
    if a == [] {
      assert a + b == b;
    } else {
      hide Apply;
      assert (a + b)[1..] == a[1..] + b;
      ExecConcat(aim, drafts, Apply(aim, drafts, s, a[0]), a[1..], b);
    }
  }

  lemma OneStep(aim: Aim, drafts: seq<Draft>, s: System, step: Step)
    requires |drafts| == |s.pcs| && Enabled(s, step)
    ensures Legal(aim, drafts, s, [step]) && Exec(aim, drafts, s, [step]) == Apply(aim, drafts, s, step)
  {
    hide Apply;
    assert [step][1..] == [];
  }

  /** Two posters at the same call, not yet past a review that matches. */
  ghost predicate Together(aim: Aim, s: System, u: nat, w: nat) {
    && u < |s.pcs| && w < |s.pcs| && u != w
    && match s.pcs[u]
       case ToView => s.pcs[w].ToView? && s.g.head == aim.head
       case ToList => s.pcs[w].ToList? && !FindExisting(s.g, aim.head, aim.correlationId)
       case ToSearch(create) => create && s.pcs[w].ToSearch? && s.pcs[w].create
       case ToWrite(create, _) => create && s.pcs[w].ToWrite? && s.pcs[w].create
       case ToCreate => s.pcs[w].ToCreate?
       case _ => false
  }

  function CallsLeft(pc: Pc): nat {
    match pc
    case ToView => 5
    case ToList => 4
    case ToSearch(_) => 3
    case ToWrite(_, _) => 2
    case ToCreate => 1
    case _ => 0
  }

  /** A round takes both one call on. */
  lemma RoundEffect(aim: Aim, drafts: seq<Draft>, s: System, u: nat, w: nat)
    requires |drafts| == |s.pcs| && Together(aim, s, u, w)
    ensures var s1 := Apply(aim, drafts, s, Call(u, Works));
            && Enabled(s1, Call(w, Works))
            && var s2 := Apply(aim, drafts, s1, Call(w, Works));
               if s.pcs[u].ToCreate?
               then s2.pcs[u].Done? && s2.pcs[w].Done?
                    && s2.g.reviews == s.g.reviews + [drafts[u].review, drafts[w].review]
               else s2.g.reviews == s.g.reviews && CallsLeft(s2.pcs[u]) == CallsLeft(s.pcs[u]) - 1
                    && (s.pcs[u].ToView? ==> s2.pcs[u].ToList? && s2.pcs[w].ToList? && s2.g == s.g)
                    && (!s.pcs[u].ToView? ==> Together(aim, s2, u, w))
  {
    hide PersistedBody, FindExisting, FirstWithMarker, WriteComment, Listed;
    if s.pcs[u].ToWrite? {
      WriteLeavesReviews(s, u, s.pcs[u].found, drafts[u].body, aim.marker);
      WriteLeavesReviews(Apply(aim, drafts, s, Call(u, Works)), w, s.pcs[w].found, drafts[w].body, aim.marker);
    } else if s.pcs[u].ToCreate? {
      assert [drafts[u].review] + [drafts[w].review] == [drafts[u].review, drafts[w].review];
    }
  }

  lemma WriteLeavesReviews(s: System, w: nat, found: Option<nat>, body: string, marker: string)
    ensures var s' := WriteComment(s, w, found, body, marker);
            s'.pcs == s.pcs && s'.g.reviews == s.g.reviews && s'.g.head == s.g.head
  {
    hide PersistedBody;
  }

  function Rounds(n: nat, u: nat, w: nat): seq<Step> {
    if n == 0 then [] else [Call(u, Works), Call(w, Works)] + Rounds(n - 1, u, w)
  }

  /** Calling in step, both create. */
  lemma {:induction false} InStepBothCreate(aim: Aim, drafts: seq<Draft>, s: System, u: nat, w: nat)
    requires |drafts| == |s.pcs| && Together(aim, s, u, w)
    requires !FindExisting(s.g, aim.head, aim.correlationId)
    ensures var steps := Rounds(CallsLeft(s.pcs[u]), u, w);
            && Legal(aim, drafts, s, steps)
            && var s' := Exec(aim, drafts, s, steps);
               && s'.pcs[u].Done? && s'.pcs[w].Done?
               && s'.g.reviews == s.g.reviews + [drafts[u].review, drafts[w].review]
    decreases CallsLeft(s.pcs[u])
  {
    hide Legal, Exec, Apply, FindExisting;
    RoundEffect(aim, drafts, s, u, w);
    var s1 := Apply(aim, drafts, s, Call(u, Works));
    var s2 := Apply(aim, drafts, s1, Call(w, Works));
    OneStep(aim, drafts, s, Call(u, Works));
    OneStep(aim, drafts, s1, Call(w, Works));
    ExecConcat(aim, drafts, s, [Call(u, Works)], [Call(w, Works)]);
    var round := [Call(u, Works), Call(w, Works)];
    assert [Call(u, Works)] + [Call(w, Works)] == round;
    if s.pcs[u].ToCreate? {
      assert Rounds(0, u, w) == [];
      assert Rounds(1, u, w) == round + [] == round;
    } else {
      SameReviews(aim, s.g, s2.g);
      InStepBothCreate(aim, drafts, s2, u, w);
      ExecConcat(aim, drafts, s, round, Rounds(CallsLeft(s2.pcs[u]), u, w));
    }
  }

  lemma SameReviews(aim: Aim, g: GitHub, g': GitHub)
    requires g'.reviews == g.reviews
    ensures FindExisting(g', aim.head, aim.correlationId) == FindExisting(g, aim.head, aim.correlationId)
  {
  }

  /** Such a race exists wherever two posters can start: calling in step, both finish and both create a review. */
  lemma RaceHappens(aim: Aim, drafts: seq<Draft>, s: System, u: nat, w: nat)
    requires Fresh(aim, drafts, s) && s.g.head == aim.head && u < |s.pcs| && w < |s.pcs| && u != w
    ensures Legal(aim, drafts, s, Rounds(5, u, w))
    ensures var s' := Exec(aim, drafts, s, Rounds(5, u, w));
            && s'.pcs[u].Done? && s'.pcs[w].Done?
            && s'.g.reviews == s.g.reviews + [drafts[u].review, drafts[w].review]
  {
    assert s.pcs[u] in s.pcs && s.pcs[w] in s.pcs;
    NothingListed(aim, s.g);
    hide Legal, Exec, Rounds, FindExisting, Matches, Contains;
    InStepBothCreate(aim, drafts, s, u, w);
  }

  lemma NothingListed(aim: Aim, g: GitHub)
    requires forall r <- g.reviews :: !Matches(r, aim.head, aim.correlationId)
    ensures !FindExisting(g, aim.head, aim.correlationId)
  {
  }

  // One poster alone is an attempt

  function OtherSteps(es: seq<Env>): seq<Step> {
    Map((e: Env) => Other(e), es)
  }

  lemma {:induction false} OthersAreAllHappen(aim: Aim, drafts: seq<Draft>, s: System, es: seq<Env>)
    requires |drafts| == |s.pcs|
    ensures Legal(aim, drafts, s, OtherSteps(es))
    ensures Exec(aim, drafts, s, OtherSteps(es)) == s.(g := AllHappen(s.g, es))
    decreases es
  {
    if es != [] {
      assert OtherSteps(es)[1..] == OtherSteps(es[1..]);
      OthersAreAllHappen(aim, drafts, s.(g := Happens(s.g, es[0])), es[1..]);
    }
  }

  /** A call, others' activity, and what follows. */
  lemma CallThen(aim: Aim, drafts: seq<Draft>, s: System, w: nat, fault: Fault, es: seq<Env>, rest: seq<Step>)
    requires |drafts| == |s.pcs| && Enabled(s, Call(w, fault))
    requires var s1 := Apply(aim, drafts, s, Call(w, fault));
             Legal(aim, drafts, s1.(g := AllHappen(s1.g, es)), rest)
    ensures var steps := [Call(w, fault)] + (OtherSteps(es) + rest);
            var s1 := Apply(aim, drafts, s, Call(w, fault));
            && Legal(aim, drafts, s, steps)
            && Exec(aim, drafts, s, steps) == Exec(aim, drafts, s1.(g := AllHappen(s1.g, es)), rest)
  {
    hide AllHappen, OtherSteps;
    var s1 := Apply(aim, drafts, s, Call(w, fault));
    OthersAreAllHappen(aim, drafts, s1, es);
    ExecConcat(aim, drafts, s1, OtherSteps(es), rest);
    var steps := [Call(w, fault)] + (OtherSteps(es) + rest);
    assert steps[0] == Call(w, fault) && steps[1..] == OtherSteps(es) + rest;
  }

  /** A call that ends a poster's work. */
  lemma LastCall(aim: Aim, drafts: seq<Draft>, s: System, w: nat, fault: Fault)
    requires |drafts| == |s.pcs| && Enabled(s, Call(w, fault))
    ensures Legal(aim, drafts, s, [Call(w, fault)])
    ensures Exec(aim, drafts, s, [Call(w, fault)]) == Apply(aim, drafts, s, Call(w, fault))
  {
    hide Apply;
    OneStep(aim, drafts, s, Call(w, fault));
  }

  function CreateSteps(w: nat, plan: Plan, create: bool): seq<Step> {
    if create then [Call(w, plan.create)] else []
  }

  function WriteSteps(w: nat, plan: Plan, create: bool): seq<Step> {
    if plan.comment == Works then [Call(w, Works)] + (OtherSteps(plan.afterComment) + CreateSteps(w, plan, create))
    else [Call(w, plan.comment)]
  }

  /** The comment call lists and writes; a fault before its effect stops it at once. */
  function CommentSteps(w: nat, plan: Plan, create: bool): seq<Step> {
    if plan.comment == FailsBefore then [Call(w, FailsBefore)]
    else [Call(w, Works)] + (OtherSteps([]) + WriteSteps(w, plan, create))
  }

  function ListSteps(w: nat, plan: Plan, create: bool): seq<Step> {
    if plan.list == Works then [Call(w, Works)] + (OtherSteps(plan.afterList) + CommentSteps(w, plan, create))
    else [Call(w, plan.list)]
  }

  /** The calls of one poster as a plan has them, with others' activity between them, as far as they go. */
  function SoloSteps(w: nat, plan: Plan, current: bool, create: bool): seq<Step> {
    if plan.view == Works && current then [Call(w, Works)] + (OtherSteps(plan.afterView) + ListSteps(w, plan, create))
    else [Call(w, plan.view)]
  }

  /** A poster that is done has posted, one that stopped has not. */
  predicate Ends(pc: Pc, o: Outcome) {
    pc == if o == Posted then Done else Stopped
  }

  lemma WriteIsCreateOrUpdate(s: System, w: nat, body: string, marker: string)
    requires marker != ""
    ensures var s' := WriteComment(s, w, FirstWithMarker(Listed(s.g.comments), marker), body, marker);
            s'.g == CreateOrUpdate(s.g, body, marker) && s'.pcs == s.pcs
  {
    hide PersistedBody;
  }

  lemma WriteSolo(aim: Aim, drafts: seq<Draft>, s: System, w: nat, plan: Plan, create: bool, before: GitHub)
    requires |drafts| == |s.pcs| && w < |s.pcs| && plan.comment != FailsBefore && aim.marker != "" && s.g == before
    requires s.pcs[w] == ToWrite(create, FirstWithMarker(Listed(before.comments), aim.marker))
    ensures var (g, o) := Write(before, true, aim.marker, drafts[w].body,
                                if create then Adds(drafts[w].review) else NotNeeded, plan);
            var steps := WriteSteps(w, plan, create);
            && Legal(aim, drafts, s, steps) && Exec(aim, drafts, s, steps).g == g
            && Ends(Exec(aim, drafts, s, steps).pcs[w], o)
  {
    hide Legal, Exec, FirstWithMarker, AllHappen, OtherSteps, Listed, WriteComment, CreateOrUpdate;
    WriteIsCreateOrUpdate(s, w, drafts[w].body, aim.marker);
    if plan.comment == Works {
      var s1 := Apply(aim, drafts, s, Call(w, Works));
      var s2 := s1.(g := AllHappen(s1.g, plan.afterComment));
      if create {
        LastCall(aim, drafts, s2, w, plan.create);
      } else {
        Nothing(aim, drafts, s2);
      }
      CallThen(aim, drafts, s, w, Works, plan.afterComment, CreateSteps(w, plan, create));
    } else {
      LastCall(aim, drafts, s, w, plan.comment);
    }
  }

  lemma Nothing(aim: Aim, drafts: seq<Draft>, s: System)
    requires |drafts| == |s.pcs|
    ensures Legal(aim, drafts, s, []) && Exec(aim, drafts, s, []) == s
  {
  }

  lemma CommentSolo(aim: Aim, drafts: seq<Draft>, s: System, w: nat, plan: Plan, create: bool)
    requires |drafts| == |s.pcs| && w < |s.pcs| && s.pcs[w] == ToSearch(create) && aim.marker != ""
    ensures var (g, o) := Write(s.g, true, aim.marker, drafts[w].body,
                                if create then Adds(drafts[w].review) else NotNeeded, plan);
            var steps := CommentSteps(w, plan, create);
            && Legal(aim, drafts, s, steps) && Exec(aim, drafts, s, steps).g == g
            && Ends(Exec(aim, drafts, s, steps).pcs[w], o)
  {
    hide Legal, Exec, FirstWithMarker, CreateOrUpdate, CreateReview, AllHappen, OtherSteps, Listed, WriteSteps;
    if plan.comment == FailsBefore {
      LastCall(aim, drafts, s, w, FailsBefore);
    } else {
      AllHappenNothing();
      var s1 := Apply(aim, drafts, s, Call(w, Works));
      WriteSolo(aim, drafts, s1, w, plan, create, s.g);
      CallThen(aim, drafts, s, w, Works, [], WriteSteps(w, plan, create));
    }
  }

  lemma ListSolo(aim: Aim, drafts: seq<Draft>, s: System, w: nat, plan: Plan)
    requires |drafts| == |s.pcs| && w < |s.pcs| && s.pcs[w].ToList? && aim.marker != ""
    ensures var create := !FindExisting(s.g, aim.head, aim.correlationId);
            var (g, o) := if plan.list != Works then (s.g, ToolFailed)
                          else Write(AllHappen(s.g, plan.afterList), true, aim.marker, drafts[w].body,
                                     if create then Adds(drafts[w].review) else NotNeeded, plan);
            var steps := ListSteps(w, plan, create);
            && Legal(aim, drafts, s, steps) && Exec(aim, drafts, s, steps).g == g
            && Ends(Exec(aim, drafts, s, steps).pcs[w], o)
  {
    hide Legal, Exec, FindExisting, AllHappen, OtherSteps, CommentSteps, Write;
    var create := !FindExisting(s.g, aim.head, aim.correlationId);
    if plan.list == Works {
      var s1 := Apply(aim, drafts, s, Call(w, Works));
      CommentSolo(aim, drafts, s1.(g := AllHappen(s1.g, plan.afterList)), w, plan, create);
      CallThen(aim, drafts, s, w, Works, plan.afterList, CommentSteps(w, plan, create));
    } else {
      LastCall(aim, drafts, s, w, plan.list);
    }
  }

  /** A poster whose calls no other poster's interrupt does what an attempt is specified to do, under every plan:
      whatever fails and whatever others do, it leaves the same pull request, and ends as the attempt does. */
  lemma SoloIsAttempt(aim: Aim, drafts: seq<Draft>, s: System, w: nat, plan: Plan)
    requires |drafts| == |s.pcs| && w < |s.pcs| && s.pcs[w].ToView? && aim.marker != ""
    ensures var create := !FindExisting(AllHappen(s.g, plan.afterView), aim.head, aim.correlationId);
            var steps := SoloSteps(w, plan, s.g.head == aim.head, create);
            var (g, o) := AttemptReview(s.g, true, aim.marker, aim.head, aim.correlationId, drafts[w].body,
                                        Adds(drafts[w].review), plan);
            && Legal(aim, drafts, s, steps) && Exec(aim, drafts, s, steps).g == g
            && Ends(Exec(aim, drafts, s, steps).pcs[w], o)
  {
    hide Legal, Exec, FindExisting, AllHappen, OtherSteps, ListSteps, Write;
    var create := !FindExisting(AllHappen(s.g, plan.afterView), aim.head, aim.correlationId);
    if plan.view == Works && s.g.head == aim.head {
      var s1 := Apply(aim, drafts, s, Call(w, Works));
      ListSolo(aim, drafts, s1.(g := AllHappen(s1.g, plan.afterView)), w, plan);
      CallThen(aim, drafts, s, w, Works, plan.afterView, ListSteps(w, plan, create));
    } else {
      LastCall(aim, drafts, s, w, plan.view);
    }
  }

  lemma AllHappenNothing()
    ensures forall g: GitHub :: AllHappen(g, []) == g
  {
  }
}
