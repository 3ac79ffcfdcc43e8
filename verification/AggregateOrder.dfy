/** An aggregate is determined by its PR events and, commit by commit, its CI events:
    how the two kinds interleave does not matter. */
module AggregateOrder {
  import opened Basics
  import opened Events
  import opened Aggregate
  import opened AggregateLog

  /** PR events of a log that name a head, in order. */
  function HeadEvents(log: seq<Entry>): seq<PREvent> {
    if log == [] then [] else
      var rest, last := HeadEvents(log[..|log| - 1]), log[|log| - 1];
      if NamedHead(last).Some? then rest + [last.pr] else rest
  }

  /** CI events of a log for one commit, in order. */
  function CIEventsFor(log: seq<Entry>, sha: string): seq<CICompleted> {
    if log == [] then [] else
      var rest, last := CIEventsFor(log[..|log| - 1], sha), log[|log| - 1];
      if last.CIDone? && last.ci.commitSha == sha then rest + [last.ci] else rest
  }

  function LastHead(head: string, prs: seq<PREvent>): string {
    if prs == [] then head else
      match HeadShaFor(prs[|prs| - 1])
      case Success(h) => h
      case Failure(_) => head
  }

  function LastTitle(title: string, prs: seq<PREvent>): string {
    if prs == [] then title
    else if prs[|prs| - 1].title != "" then prs[|prs| - 1].title
    else LastTitle(title, prs[..|prs| - 1])
  }

  ghost predicate NamesHead(prs: seq<PREvent>, sha: string) {
    exists e <- prs :: HeadShaFor(e) == Success(sha)
  }

  /** A run with its flag erased. */
  function Unflagged(r: RunRecord): RunRecord {
    r.(isCurrentHead := false)
  }

  function RecordOf(e: CICompleted): RunRecord {
    Unflagged(RecordFromEvent(e, ""))
  }

  /** The runs filed under a commit are its CI events, in order and none missing. */
  lemma {:induction false} RunsAreFilteredLog(first: PREvent, log: seq<Entry>, sha: string)
    requires FromPREvent(first).Success?
    ensures Map(Unflagged, Run(FromPREvent(first).value, log).Runs(sha)) == Map(RecordOf, CIEventsFor(log, sha))
  {
    var a0 := FromPREvent(first).value;
    if log != [] {
      var l, last := log[..|log| - 1], log[|log| - 1];
      RunsAreFilteredLog(first, l, sha);
      RunKeepsValid(a0, l);
      RunsAfterStep(Run(a0, l), last, sha);
      UnflaggedRunsStep(Run(a0, l).Runs(sha), Run(a0, log).Runs(sha), log, Run(a0, l).currentHead,
                        Run(a0, log).currentHead == sha, sha);
    }
  }

  lemma UnflaggedRunsStep(
    runs: seq<RunRecord>, runs': seq<RunRecord>, log: seq<Entry>, head: string, still: bool, sha: string)
    requires log != []
    requires Map(Unflagged, runs) == Map(RecordOf, CIEventsFor(log[..|log| - 1], sha))
    requires var last := log[|log| - 1];
      if last.CIDone? && last.ci.commitSha == sha
      then runs' == runs + [RecordFromEvent(last.ci, head)] else Kept(runs, runs', still)
    ensures Map(Unflagged, runs') == Map(RecordOf, CIEventsFor(log, sha))
  {
    var us, us' := Map(Unflagged, runs), Map(Unflagged, runs');
    forall i | 0 <= i < |runs| ensures us'[i] == us[i] {
    }
  }

  lemma KeysAfterStep(a: State, entry: Entry, sha: string)
    ensures sha in Step(a, entry).revisions
       <==> sha in a.revisions || NamedHead(entry) == Some(sha) || (entry.CIDone? && entry.ci.commitSha == sha)
    ensures Step(a, entry).title ==
              if NamedHead(entry).Some? && entry.pr.title != "" then entry.pr.title else a.title
    ensures Step(a, entry).currentHead ==
              match NamedHead(entry) { case Some(h) => h case None => a.currentHead }
    ensures Step(a, entry).repoFullName == a.repoFullName && Step(a, entry).prNumber == a.prNumber
  {
  }

  lemma NamesHeadAppended(prs: seq<PREvent>, e: PREvent, sha: string)
    ensures NamesHead(prs + [e], sha) <==> NamesHead(prs, sha) || HeadShaFor(e) == Success(sha)
  {
    if NamesHead(prs, sha) {
      var x :| x in prs && HeadShaFor(x) == Success(sha);
      assert x in prs + [e];
    }
    assert e in prs + [e];
  }

  /** A commit has a revision iff it is the first head, a later head or the commit of a CI event. */
  lemma {:induction false} RevisionsAreFilteredLog(a0: State, log: seq<Entry>, sha: string)
    ensures sha in Run(a0, log).revisions
       <==> sha in a0.revisions || NamesHead(HeadEvents(log), sha) || CIEventsFor(log, sha) != []
  {
    if log != [] {
      var l, last := log[..|log| - 1], log[|log| - 1];
      RevisionsAreFilteredLog(a0, l, sha);
      KeysAfterStep(Run(a0, l), last, sha);
      if NamedHead(last).Some? {
        NamesHeadAppended(HeadEvents(l), last.pr, sha);
      }
    }
  }

  /** Head and title are those of the last PR event, or the last one that has a title. */
  lemma {:induction false} HeadIsFilteredLog(a0: State, log: seq<Entry>)
    ensures Run(a0, log).currentHead == LastHead(a0.currentHead, HeadEvents(log))
    ensures Run(a0, log).title == LastTitle(a0.title, HeadEvents(log))
    ensures Run(a0, log).repoFullName == a0.repoFullName && Run(a0, log).prNumber == a0.prNumber
  {
    if log != [] {
      var l, last := log[..|log| - 1], log[|log| - 1];
      HeadIsFilteredLog(a0, l);
      KeysAfterStep(Run(a0, l), last, "");
      assert NamedHead(last).Some? ==> HeadEvents(log)[..|HeadEvents(l)|] == HeadEvents(l);
    }
  }

  ghost predicate HasPRId(prs: seq<PREvent>, id: string) {
    exists e <- prs :: e.meta.eventId == id
  }

  ghost predicate HasCIId(cis: seq<CICompleted>, id: string) {
    exists e <- cis :: e.meta.eventId == id
  }

  ghost predicate SomeCIId(log: seq<Entry>, id: string) {
    exists sha: string :: HasCIId(CIEventsFor(log, sha), id)
  }

  lemma SomeCIIdStep(log: seq<Entry>, id: string)
    requires log != []
    ensures var last := log[|log| - 1];
            SomeCIId(log, id) <==> SomeCIId(log[..|log| - 1], id) || (last.CIDone? && last.ci.meta.eventId == id)
  {
    var l, last := log[..|log| - 1], log[|log| - 1];
    forall sha: string
      ensures HasCIId(CIEventsFor(log, sha), id)
         <==> || HasCIId(CIEventsFor(l, sha), id)
              || (last.CIDone? && last.ci.commitSha == sha && last.ci.meta.eventId == id)
    {
      if last.CIDone? && last.ci.commitSha == sha {
        assert CIEventsFor(log, sha) == CIEventsFor(l, sha) + [last.ci];
        assert last.ci in CIEventsFor(log, sha);
        assert forall e <- CIEventsFor(l, sha) :: e in CIEventsFor(log, sha);
      }
    }
    if last.CIDone? && last.ci.meta.eventId == id {
      assert HasCIId(CIEventsFor(log, last.ci.commitSha), id);
    }
    if SomeCIId(l, id) {
      var sha :| HasCIId(CIEventsFor(l, sha), id);
      assert HasCIId(CIEventsFor(log, sha), id);
    }
  }

  /** The event ids kept depend on the PR events and, commit by commit, the CI events. */
  lemma {:induction false} EventIdsAreFilteredLog(a0: State, log: seq<Entry>, id: string)
    ensures id in Run(a0, log).eventIds
       <==> id in a0.eventIds || HasPRId(HeadEvents(log), id) || SomeCIId(log, id)
  {
    if log != [] {
      hide SomeCIId, HeadShaFor;
      var l, last := log[..|log| - 1], log[|log| - 1];
      EventIdsAreFilteredLog(a0, l, id);
      SomeCIIdStep(log, id);
      assert id in Run(a0, log).eventIds <==> id in Run(a0, l).eventIds || Carries(last, id);
      if NamedHead(last).Some? {
        assert HeadEvents(log) == HeadEvents(l) + [last.pr];
        assert last.pr in HeadEvents(log) && forall e <- HeadEvents(l) :: e in HeadEvents(log);
      }
    } else {
      assert forall sha: string :: CIEventsFor(log, sha) == [];
    }
  }

  /** Everything of an aggregate except run flags, review requests, and the order of commits and event ids. */
  ghost predicate SameUpToFlags(a: State, b: State) {
    && a.repoFullName == b.repoFullName && a.prNumber == b.prNumber && a.title == b.title
    && a.currentHead == b.currentHead
    && a.revisions.Keys == b.revisions.Keys
    && (forall sha <- a.revisions :: a.revisions[sha].status == b.revisions[sha].status)
    && (forall sha: string :: Map(Unflagged, a.Runs(sha)) == Map(Unflagged, b.Runs(sha)))
    && (forall id: string :: id in a.eventIds <==> id in b.eventIds)
  }

  /** Two logs with the same PR events and, for every commit, the same CI events, however interleaved,
      build the same aggregate up to run flags. */
  lemma ArrivalOrderDoesNotMatter(first: PREvent, log: seq<Entry>, log': seq<Entry>)
    requires FromPREvent(first).Success?
    requires HeadEvents(log) == HeadEvents(log')
    requires forall sha: string :: CIEventsFor(log, sha) == CIEventsFor(log', sha)
    ensures SameUpToFlags(Run(FromPREvent(first).value, log), Run(FromPREvent(first).value, log'))
  {
    var a0 := FromPREvent(first).value;
    var a, b := Run(a0, log), Run(a0, log');
    forall sha: string
      ensures Map(Unflagged, a.Runs(sha)) == Map(Unflagged, b.Runs(sha))
      ensures sha in a.revisions <==> sha in b.revisions
    {
      RunsAreFilteredLog(first, log, sha);
      RunsAreFilteredLog(first, log', sha);
      RevisionsAreFilteredLog(a0, log, sha);
      RevisionsAreFilteredLog(a0, log', sha);
    }
    HeadIsFilteredLog(a0, log);
    HeadIsFilteredLog(a0, log');
    RunKeepsValid(a0, log);
    RunKeepsValid(a0, log');
    forall sha <- a.revisions ensures a.revisions[sha].status == b.revisions[sha].status {
      StatusFollowsHead(a, b, sha);
    }
    forall id: string ensures id in a.eventIds <==> id in b.eventIds {
      EventIdsAreFilteredLog(a0, log, id);
      EventIdsAreFilteredLog(a0, log', id);
      SameCIIds(log, log', id);
    }
  }

  lemma SameCIIds(log: seq<Entry>, log': seq<Entry>, id: string)
    requires forall sha: string :: CIEventsFor(log, sha) == CIEventsFor(log', sha)
    ensures SomeCIId(log, id) <==> SomeCIId(log', id)
  {
    if SomeCIId(log, id) {
      var sha :| HasCIId(CIEventsFor(log, sha), id);
      assert HasCIId(CIEventsFor(log', sha), id);
    }
    if SomeCIId(log', id) {
      var sha :| HasCIId(CIEventsFor(log', sha), id);
      assert HasCIId(CIEventsFor(log, sha), id);
    }
  }

  lemma StatusFollowsHead(a: State, b: State, sha: string)
    requires a.Valid() && b.Valid() && a.currentHead == b.currentHead && sha in a.revisions && sha in b.revisions
    ensures a.revisions[sha].status == b.revisions[sha].status
  {
    assert a.RevisionValid(sha, a.revisions[sha]) && b.RevisionValid(sha, b.revisions[sha]);
  }

  /** The flag itself does depend on the order: recorded after its PR event a run is current... */
  lemma FlaggedAfterItsHead(a: State, next: PREvent, ci: CICompleted)
    requires a.Valid() && HeadShaFor(next) == Success(ci.commitSha)
    ensures Step(Step(a, PRHead(next)), CIDone(ci)).Runs(ci.commitSha)
         == Step(a, PRHead(next)).Runs(ci.commitSha) + [RecordOf(ci).(isCurrentHead := true)]
  {
    MoveHeadKeepsValid(a, ci.commitSha, next.title, next.meta.eventId);
    RunsAfterStep(Step(a, PRHead(next)), CIDone(ci), ci.commitSha);
  }

  /** ...but a run that arrives before the PR event naming its commit stays flagged as history. */
  lemma UnflaggedBeforeItsHead(a: State, next: PREvent, ci: CICompleted)
    requires a.Valid() && HeadShaFor(next) == Success(ci.commitSha) && a.currentHead != ci.commitSha
    ensures |Step(Step(a, CIDone(ci)), PRHead(next)).Runs(ci.commitSha)| == |a.Runs(ci.commitSha)| + 1
    ensures Step(Step(a, CIDone(ci)), PRHead(next)).Runs(ci.commitSha)[|a.Runs(ci.commitSha)|] == RecordOf(ci)
  {
    var b := Step(a, CIDone(ci));
    RecordCIKeepsValid(a, ci);
    RunsAfterStep(a, CIDone(ci), ci.commitSha);
    RunsAfterStep(b, PRHead(next), ci.commitSha);
  }

  /** A run that is history stays as it is, whatever follows. */
  lemma {:induction false} HistoryStays(a: State, log: seq<Entry>, sha: string, k: nat)
    requires a.Valid() && k < |a.Runs(sha)| && !a.Runs(sha)[k].isCurrentHead
    ensures k < |Run(a, log).Runs(sha)| && Run(a, log).Runs(sha)[k] == a.Runs(sha)[k]
  {
    if log != [] {
      hide Step;
      var l, last := log[..|log| - 1], log[|log| - 1];
      HistoryStays(a, l, sha, k);
      RunKeepsValid(a, l);
      RunsAfterStep(Run(a, l), last, sha);
    }
  }

  /** So the run that came before its PR event is history for good, even though its commit is the head. */
  lemma UnflaggedForGood(a: State, next: PREvent, ci: CICompleted, later: seq<Entry>)
    requires a.Valid() && HeadShaFor(next) == Success(ci.commitSha) && a.currentHead != ci.commitSha
    ensures var b := Step(Step(a, CIDone(ci)), PRHead(next));
            var k := |a.Runs(ci.commitSha)|;
            && b.currentHead == ci.commitSha
            && k < |Run(b, later).Runs(ci.commitSha)| && Run(b, later).Runs(ci.commitSha)[k] == RecordOf(ci)
  {
    UnflaggedBeforeItsHead(a, next, ci);
    RecordCIKeepsValid(a, ci);
    var c := Step(a, CIDone(ci));
    MoveHeadKeepsValid(c, ci.commitSha, next.title, next.meta.eventId);
    HistoryStays(Step(c, PRHead(next)), later, ci.commitSha, |a.Runs(ci.commitSha)|);
  }

  /** Re-delivering a PR event changes nothing. */
  lemma PRRedeliveryIsIdempotent(a: State, pr: PREvent)
    requires a.Valid()
    ensures Step(Step(a, PRHead(pr)), PRHead(pr)) == Step(a, PRHead(pr))
  {
    if HeadShaFor(pr).Success? {
      MoveHeadTwice(a, HeadShaFor(pr).value, pr.title, pr.meta.eventId);
    }
  }

  lemma MoveHeadTwice(a: State, head: string, title: string, eventId: string)
    ensures var b := MoveHead(a, head, title, eventId); MoveHead(b, head, title, eventId) == b
  {
    var b := MoveHead(a, head, title, eventId);
    assert b.revisions[head := b.revisions[head].(status := Current)] == b.revisions;
  }

  /** Re-delivering a CI event files the same run a second time, under the same event id. */
  lemma CIRedeliveryDuplicates(a: State, ci: CICompleted)
    requires a.Valid()
    ensures var b := Step(a, CIDone(ci));
            var run := RecordFromEvent(ci, a.currentHead);
            && Step(b, CIDone(ci)).Runs(ci.commitSha) == a.Runs(ci.commitSha) + [run, run]
            && Step(b, CIDone(ci)).eventIds == b.eventIds
  {
    RecordCIKeepsValid(a, ci);
    RunsAfterStep(a, CIDone(ci), ci.commitSha);
    RunsAfterStep(Step(a, CIDone(ci)), CIDone(ci), ci.commitSha);
  }
}
