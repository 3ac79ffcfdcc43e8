/** What an event log means: the aggregate folded from it, against the log filtered by commit. */
module AggregateLog {
  import opened Basics
  import opened Events
  import opened Aggregate
  import Text

  datatype Entry =
    | PRHead(pr: PREvent)
    | CIDone(ci: CICompleted)
    | ReviewAsked(trigger: ReviewRunTrigger, requestedBy: string)

  /** One event against an existing aggregate; a PR event with a blank head raises and changes nothing. */
  function Step(a: State, entry: Entry): State {
    match entry
    case PRHead(e) => (match ApplyPREvent(a, e) case Success(b) => b case Failure(_) => a)
    case CIDone(e) => RecordCICompleted(a, e)
    case ReviewAsked(t, who) => StartReviewRun(a, t, who)
  }

  function Run(a: State, log: seq<Entry>): State {
    if log == [] then a else Step(Run(a, log[..|log| - 1]), log[|log| - 1])
  }

  /** A PR event names the head it carries, outer white space aside: it creates an aggregate with that head, or moves
      the one there is. */
  lemma PREventSetsHead(a: State, e: PREvent, lead: string, sha: string, trail: string)
    requires e.headSha == lead + sha + trail && Text.Spaces(lead) && Text.Spaces(trail)
    requires sha != "" && Text.Trimmed(sha)
    ensures var r, b := FromPREvent(e), Step(a, PRHead(e));
            && r.Success? && r.value.currentHead == sha && r.value.title == e.title
            && (r.value.repoFullName, r.value.prNumber) == (e.repoFullName, e.prNumber)
            && b.currentHead == sha && b.title == (if e.title != "" then e.title else a.title)
            && (b.repoFullName, b.prNumber) == (a.repoFullName, a.prNumber)
  {
    hide Text.Strip;
    Text.StripPadded(lead, sha, trail);
  }

  /** One that carries only white space is refused and changes nothing. */
  lemma BlankHeadIsRefused(a: State, e: PREvent)
    requires Text.Spaces(e.headSha)
    ensures FromPREvent(e).Failure? && Step(a, PRHead(e)) == a
  {
    hide Text.Strip;
    Text.StripIsEmptyIff(e.headSha);
  }

  /** Every reachable aggregate is valid: one revision is current, it is the head's, and only its runs
      may be flagged current. */
  lemma {:induction false} RunKeepsValid(a: State, log: seq<Entry>)
    requires a.Valid()
    ensures Run(a, log).Valid()
  {
    if log != [] {
      var b, last := Run(a, log[..|log| - 1]), log[|log| - 1];
      RunKeepsValid(a, log[..|log| - 1]);
      match last
      case PRHead(e) =>
        if HeadShaFor(e).Success? {
          MoveHeadKeepsValid(b, HeadShaFor(e).value, e.title, e.meta.eventId);
        }
      case CIDone(e) => RecordCIKeepsValid(b, e);
      case ReviewAsked(t, who) =>
        ReviewKeepsValid(b, t, who);
    }
  }

  /** The head a PR event names, unless it is blank. */
  function NamedHead(entry: Entry): Option<string> {
    if entry.PRHead? then
      match HeadShaFor(entry.pr)
      case Success(h) => Some(h)
      case Failure(_) => None
    else None
  }

  /** The head after the first `n` events: the one named last. */
  function HeadAt(head: string, log: seq<Entry>, n: nat): string
    requires n <= |log|
  {
    if n == 0 then head else
      match NamedHead(log[n - 1])
      case Some(h) => h
      case None => HeadAt(head, log, n - 1)
  }

  /** Positions of the CI events for one commit, ascending. */
  function CIPositions(log: seq<Entry>, sha: string): (r: seq<nat>)
    ensures forall i :: 0 <= i < |r| ==> r[i] < |log| && log[r[i]].CIDone? && log[r[i]].ci.commitSha == sha
  {
    if log == [] then [] else
      var rest := CIPositions(log[..|log| - 1], sha);
      var last := log[|log| - 1];
      if last.CIDone? && last.ci.commitSha == sha then rest + [|log| - 1] else rest
  }

  /** `sha` is the head at position `k` of the log and at every later position. */
  ghost predicate HeldSince(head: string, log: seq<Entry>, k: nat, sha: string) {
    forall j :: k <= j <= |log| ==> HeadAt(head, log, j) == sha
  }

  /** `r` records the CI event at position `k` and is flagged iff its commit has been the head since. */
  ghost predicate RunMeans(r: RunRecord, head: string, log: seq<Entry>, k: nat)
    requires k < |log| && log[k].CIDone?
  {
    var e := log[k].ci;
    r == RecordFromEvent(e, "").(isCurrentHead := HeldSince(head, log, k, e.commitSha))
  }

  ghost predicate RunsMeanLog(runs: seq<RunRecord>, head: string, log: seq<Entry>, sha: string) {
    var ks := CIPositions(log, sha);
    && |runs| == |ks|
    && forall i :: 0 <= i < |ks| ==> RunMeans(runs[i], head, log, ks[i])
  }

  lemma {:induction false} HeadAtPrefix(head: string, l: seq<Entry>, log: seq<Entry>, n: nat)
    requires n <= |l| && l <= log
    ensures HeadAt(head, l, n) == HeadAt(head, log, n)
  {
    if n > 0 {
      HeadAtPrefix(head, l, log, n - 1);
    }
  }

  /** The current head is the one named by the last PR event that names one. */
  lemma {:induction false} HeadIsLastNamed(a: State, log: seq<Entry>)
    ensures Run(a, log).currentHead == HeadAt(a.currentHead, log, |log|)
  {
    if log != [] {
      var l := log[..|log| - 1];
      HeadIsLastNamed(a, l);
      HeadAtPrefix(a.currentHead, l, log, |l|);
    }
  }

  lemma HeldSinceStep(head: string, log: seq<Entry>, k: nat, sha: string)
    requires log != [] && k < |log|
    ensures HeldSince(head, log, k, sha)
       <==> HeldSince(head, log[..|log| - 1], k, sha) && HeadAt(head, log, |log|) == sha
  {
    var l := log[..|log| - 1];
    forall j | 0 <= j <= |l| ensures HeadAt(head, l, j) == HeadAt(head, log, j) {
      HeadAtPrefix(head, l, log, j);
    }
  }

  /** How one event changes the runs filed under one commit. */
  lemma RunsAfterStep(a: State, entry: Entry, sha: string)
    requires a.Valid()
    ensures entry.CIDone? && entry.ci.commitSha == sha ==>
              Step(a, entry).Runs(sha) == a.Runs(sha) + [RecordFromEvent(entry.ci, a.currentHead)]
    ensures !(entry.CIDone? && entry.ci.commitSha == sha) ==>
              Kept(a.Runs(sha), Step(a, entry).Runs(sha), Step(a, entry).currentHead == sha)
  {
    match entry
    case PRHead(e) =>
      if HeadShaFor(e).Success? {
        MoveHeadRevision(a, HeadShaFor(e).value, e.title, e.meta.eventId, sha);
      } else {
        FlaggedOnlyAtHead(a, sha);
      }
    case CIDone(e) => FlaggedOnlyAtHead(a, sha);
    case ReviewAsked(t, who) => FlaggedOnlyAtHead(a, sha);
  }

  /** The same runs in the same order, keeping a flag only when `stillHead`. */
  ghost predicate Kept(before: seq<RunRecord>, after: seq<RunRecord>, stillHead: bool) {
    && |after| == |before|
    && forall i :: 0 <= i < |before| ==>
         after[i] == before[i].(isCurrentHead := before[i].isCurrentHead && stillHead)
  }

  lemma FlaggedOnlyAtHead(a: State, sha: string)
    requires a.Valid()
    ensures forall i :: 0 <= i < |a.Runs(sha)| && a.Runs(sha)[i].isCurrentHead ==> a.currentHead == sha
  {
    if sha in a.revisions {
      assert a.RevisionValid(sha, a.revisions[sha]);
      forall i | 0 <= i < |a.Runs(sha)| ensures a.Runs(sha)[i] in a.revisions[sha].ciRuns {
      }
    }
  }

  /** The exact meaning of `is_current_head`: every run is filed under its own commit, in log order,
      and is flagged iff its commit has been the head without interruption since it was recorded. */
  lemma {:induction false} CurrentFlagMeaning(first: PREvent, log: seq<Entry>, sha: string)
    requires FromPREvent(first).Success?
    ensures var a0 := FromPREvent(first).value;
            RunsMeanLog(Run(a0, log).Runs(sha), a0.currentHead, log, sha)
  {
    var a0 := FromPREvent(first).value;
    if log != [] {
      var l, last := log[..|log| - 1], log[|log| - 1];
      CurrentFlagMeaning(first, l, sha);
      RunKeepsValid(a0, l);
      RunsAfterStep(Run(a0, l), last, sha);
      HeadIsLastNamed(a0, l);
      HeadIsLastNamed(a0, log);
      HeadAtPrefix(a0.currentHead, l, log, |l|);
      RunsMeanLogStep(Run(a0, l).Runs(sha), Run(a0, log).Runs(sha), a0.currentHead, log, sha);
    }
  }

  lemma RunsMeanLogStep(
    runs: seq<RunRecord>, runs': seq<RunRecord>, head: string, log: seq<Entry>, sha: string)
    requires log != [] && RunsMeanLog(runs, head, log[..|log| - 1], sha)
    requires var last := log[|log| - 1];
      if last.CIDone? && last.ci.commitSha == sha
      then runs' == runs + [RecordFromEvent(last.ci, HeadAt(head, log, |log| - 1))]
      else Kept(runs, runs', HeadAt(head, log, |log|) == sha)
    ensures RunsMeanLog(runs', head, log, sha)
  {
    var l, last := log[..|log| - 1], log[|log| - 1];
    var ks := CIPositions(l, sha);
    if last.CIDone? && last.ci.commitSha == sha {
      RunAdded(head, log);
    }
    forall i | 0 <= i < |ks| ensures RunMeans(runs'[i], head, log, ks[i]) {
      assert RunMeans(runs[i], head, l, ks[i]);
      assert log[ks[i]] == l[ks[i]];
      assert last.CIDone? ==> HeadAt(head, log, |log|) == HeadAt(head, log, |log| - 1);
      if last.CIDone? && last.ci.commitSha == sha {
        RunStays(runs[i], head, log, ks[i]);
      } else {
        RunKept(runs[i], runs'[i], head, log, ks[i]);
      }
    }
  }

  /** A CI event does not move the head, so it leaves every flag alone. */
  lemma RunStays(r: RunRecord, head: string, log: seq<Entry>, k: nat)
    requires k < |log| - 1 && log[k].CIDone? && log[|log| - 1].CIDone?
    requires RunMeans(r, head, log[..|log| - 1], k)
    ensures RunMeans(r, head, log, k)
  {
    var l, sha := log[..|log| - 1], log[k].ci.commitSha;
    HeldSinceStep(head, log, k, sha);
    if HeldSince(head, l, k, sha) {
      assert HeadAt(head, l, |l|) == sha;
      HeadAtPrefix(head, l, log, |l|);
    }
  }

  lemma RunKept(r: RunRecord, r': RunRecord, head: string, log: seq<Entry>, k: nat)
    requires k < |log| - 1 && log[k].CIDone? && RunMeans(r, head, log[..|log| - 1], k)
    requires r' == r.(isCurrentHead := r.isCurrentHead && HeadAt(head, log, |log|) == log[k].ci.commitSha)
    ensures RunMeans(r', head, log, k)
  {
    HeldSinceStep(head, log, k, log[k].ci.commitSha);
  }

  lemma RunAdded(head: string, log: seq<Entry>)
    requires log != [] && log[|log| - 1].CIDone?
    ensures RunMeans(RecordFromEvent(log[|log| - 1].ci, HeadAt(head, log, |log| - 1)), head, log, |log| - 1)
  {
    assert HeadAt(head, log, |log|) == HeadAt(head, log, |log| - 1);
  }

  /** The review requests of a log, each with the head at its time. */
  function ReviewsIn(head: string, log: seq<Entry>): seq<ReviewRun> {
    if log == [] then [] else
      var rest, last := ReviewsIn(head, log[..|log| - 1]), log[|log| - 1];
      if last.ReviewAsked?
      then rest + [ReviewRun(HeadAt(head, log, |log| - 1), last.trigger, last.requestedBy)]
      else rest
  }

  /** Every review request is kept, in order, bound to the commit that was the head when it was made. */
  lemma {:induction false} ReviewRunsMeanLog(a: State, log: seq<Entry>)
    ensures Run(a, log).reviewRuns == a.reviewRuns + ReviewsIn(a.currentHead, log)
  {
    if log != [] {
      var l := log[..|log| - 1];
      ReviewRunsMeanLog(a, l);
      HeadIsLastNamed(a, l);
      HeadAtPrefix(a.currentHead, l, log, |l|);
    }
  }

  /** An event that leaves its id behind: a CI event, or a PR event with a head. */
  predicate Carries(entry: Entry, id: string) {
    match entry
    case PRHead(e) => NamedHead(entry).Some? && e.meta.eventId == id
    case CIDone(e) => e.meta.eventId == id
    case ReviewAsked(_, _) => false
  }

  /** The event ids kept are exactly those of the events that were taken in. */
  lemma {:induction false} EventIdsAreLog(a: State, log: seq<Entry>, id: string)
    ensures id in Run(a, log).eventIds <==> id in a.eventIds || exists e <- log :: Carries(e, id)
  {
    if log != [] {
      var l, last := log[..|log| - 1], log[|log| - 1];
      EventIdsAreLog(a, l, id);
      assert log == l + [last];
      assert last in log && forall e <- l :: e in log;
      assert id in Step(Run(a, l), last).eventIds <==> id in Run(a, l).eventIds || Carries(last, id);
    }
  }
}
