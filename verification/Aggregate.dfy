/** PR aggregate state and its transitions (src/runtime/orchestrator/pr_aggregate.py). */
module Aggregate {
  import opened Basics
  import opened Events
  import Text

  datatype RevisionStatus = Current | Superseded

  datatype RunRecord = RunRecord(
    eventId: string, workflowName: string, conclusion: string, runUrl: string, failedJobs: seq<string>,
    commitSha: string, isCurrentHead: bool)
  {
    function AsHistorical(): RunRecord {
      if !isCurrentHead then this else this.(isCurrentHead := false)
    }
  }

  function RecordFromEvent(e: CICompleted, currentHead: string): RunRecord {
    RunRecord(e.meta.eventId, e.workflowName, e.conclusion, e.runUrl, e.failedJobs, e.commitSha,
              e.commitSha == currentHead)
  }

  datatype Revision = Revision(headSha: string, status: RevisionStatus, ciRuns: seq<RunRecord>) {
    function RecordRun(r: RunRecord): Revision {
      this.(ciRuns := ciRuns + [r])
    }

    /** Marks the revision and every one of its runs as history. */
    function Supersede(): (r: Revision)
      ensures r.headSha == headSha && r.status == Superseded && |r.ciRuns| == |ciRuns|
      ensures forall i :: 0 <= i < |ciRuns| ==> r.ciRuns[i] == ciRuns[i].(isCurrentHead := false)
    {
      if status == Superseded && forall r <- ciRuns :: !r.isCurrentHead then this
      else Revision(headSha, Superseded, Map((r: RunRecord) => r.AsHistorical(), ciRuns))
    }
  }

  datatype ReviewRunTrigger = Manual | Auto | CICompletedTrigger

  datatype ReviewRun = ReviewRun(headSha: string, trigger: ReviewRunTrigger, requestedBy: string)

  datatype AggregateError = BlankHead

  /** `order` is the insertion order of the `revisions` dictionary. */
  datatype State = State(
    repoFullName: string, prNumber: int, title: string, currentHead: string,
    revisions: map<string, Revision>, order: seq<string>, eventIds: seq<string>, reviewRuns: seq<ReviewRun>)
  {
    /** What holds of every reachable aggregate. */
    ghost predicate Valid() {
      && currentHead in revisions
      && (forall sha <- revisions :: RevisionValid(sha, revisions[sha]))
      && NoDuplicates(order)
      && (forall sha :: sha in order <==> sha in revisions)
      && NoDuplicates(eventIds)
    }

    ghost predicate RevisionValid(sha: string, rev: Revision) {
      && rev.headSha == sha
      && (rev.status == Current <==> sha == currentHead)
      && (forall r <- rev.ciRuns :: r.commitSha == sha && (r.isCurrentHead ==> sha == currentHead))
    }

    /** Runs filed under one commit. */
    function Runs(sha: string): seq<RunRecord> {
      if sha in revisions then revisions[sha].ciRuns else []
    }
  }

  function HeadShaFor(e: PREvent): Result<string, AggregateError> {
    var head := Text.Strip(e.headSha);
    if head == "" then Failure(BlankHead) else Success(head)
  }

  function AppendUnique(values: seq<string>, value: string): seq<string> {
    if value in values then values else values + [value]
  }

  function FromPREvent(e: PREvent): (r: Result<State, AggregateError>)
    ensures r.Success? ==> r.value.Valid()
  {
    var head :- HeadShaFor(e);
    Success(State(e.repoFullName, e.prNumber, e.title, head,
                  map[head := Revision(head, Current, [])], [head], [e.meta.eventId], []))
  }

  /** The dictionary comprehension that retires the revision of the old head. */
  function SupersedeHead(revs: map<string, Revision>, head: string): (r: map<string, Revision>)
    ensures r.Keys == revs.Keys
    ensures forall sha <- revs :: r[sha] == if sha == head then revs[sha].Supersede() else revs[sha]
  {
    map sha <- revs :: if sha == head then revs[sha].Supersede() else revs[sha]
  }

  /** Everything a PR event does once its head is known. */
  function MoveHead(a: State, head: string, title: string, eventId: string): State {
    var revs := if head == a.currentHead then a.revisions else SupersedeHead(a.revisions, a.currentHead);
    var rev := if head in revs then revs[head].(status := Current) else Revision(head, Current, []);
    a.(title := if title != "" then title else a.title,
       currentHead := head,
       revisions := revs[head := rev],
       order := AppendUnique(a.order, head),
       eventIds := AppendUnique(a.eventIds, eventId))
  }

  function ApplyPREvent(a: State, e: PREvent): Result<State, AggregateError> {
    var head :- HeadShaFor(e);
    Success(MoveHead(a, head, e.title, e.meta.eventId))
  }

  /** The revision of one commit after the head moved: only the retired one changes its runs. */
  lemma MoveHeadRevision(a: State, head: string, title: string, eventId: string, sha: string)
    requires a.Valid()
    ensures var b := MoveHead(a, head, title, eventId);
            && (sha in b.revisions <==> sha in a.revisions || sha == head)
            && (sha in b.revisions ==> b.RevisionValid(sha, b.revisions[sha]))
            && |b.Runs(sha)| == |a.Runs(sha)|
            && (forall i :: 0 <= i < |a.Runs(sha)| ==>
                  b.Runs(sha)[i] == a.Runs(sha)[i].(isCurrentHead := a.Runs(sha)[i].isCurrentHead && head == sha))
  {
    var b := MoveHead(a, head, title, eventId);
    if sha in a.revisions {
      assert a.RevisionValid(sha, a.revisions[sha]);
      forall i | 0 <= i < |a.Runs(sha)|
        ensures a.Runs(sha)[i].commitSha == sha && (a.Runs(sha)[i].isCurrentHead ==> sha == a.currentHead)
      {
        assert a.Runs(sha)[i] in a.revisions[sha].ciRuns;
      }
    }
  }

  /** A PR event keeps the invariant: exactly the new head's revision is current. */
  lemma MoveHeadKeepsValid(a: State, head: string, title: string, eventId: string)
    requires a.Valid()
    ensures MoveHead(a, head, title, eventId).Valid()
  {
    var b := MoveHead(a, head, title, eventId);
    forall sha: string
      ensures sha in b.revisions <==> sha in b.order
      ensures sha in b.revisions ==> b.RevisionValid(sha, b.revisions[sha])
    {
      MoveHeadRevision(a, head, title, eventId, sha);
    }
  }

  function RecordCICompleted(a: State, e: CICompleted): State {
    var rev := if e.commitSha in a.revisions then a.revisions[e.commitSha]
               else Revision(e.commitSha, Superseded, []);
    a.(revisions := a.revisions[e.commitSha := rev.RecordRun(RecordFromEvent(e, a.currentHead))],
       order := AppendUnique(a.order, e.commitSha),
       eventIds := AppendUnique(a.eventIds, e.meta.eventId))
  }

  /** A CI event keeps the invariant: a run for another commit is never flagged current. */
  lemma RecordCIKeepsValid(a: State, e: CICompleted)
    requires a.Valid()
    ensures RecordCICompleted(a, e).Valid()
  {
    var b := RecordCICompleted(a, e);
    forall sha <- b.revisions ensures b.RevisionValid(sha, b.revisions[sha]) {
      if sha in a.revisions {
        assert a.RevisionValid(sha, a.revisions[sha]);
      }
    }
  }

  function StartReviewRun(a: State, trigger: ReviewRunTrigger, requestedBy: string): State {
    a.(reviewRuns := a.reviewRuns + [ReviewRun(a.currentHead, trigger, requestedBy)])
  }

  /** A review request touches neither the head nor the revisions. */
  lemma ReviewKeepsValid(a: State, trigger: ReviewRunTrigger, requestedBy: string)
    requires a.Valid()
    ensures StartReviewRun(a, trigger, requestedBy).Valid()
  {
    var b := StartReviewRun(a, trigger, requestedBy);
    forall sha <- b.revisions ensures b.RevisionValid(sha, b.revisions[sha]) {
      assert a.RevisionValid(sha, a.revisions[sha]);
    }
  }
}
