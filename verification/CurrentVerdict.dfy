/** The current verdict (readiness, observations, actions) over whole event logs:
    only the current head's CI counts, and stale CI is kept as history. */
module CurrentVerdict {
  import opened Basics
  import opened Events
  import opened Aggregate
  import opened AggregateLog
  import opened AggregateOrder
  import opened Feedback

  /** Everything the posted output draws on, except historical evidence. */
  datatype Verdict = Verdict(
    head: string, readiness: Readiness, observations: seq<Observation>, pending: seq<string>, actions: seq<Action>)

  function VerdictOf(a: State, snapshot: seq<Check>): Verdict {
    var readiness := EvaluateReadiness(a, snapshot);
    var os := CurrentObservations(a, snapshot);
    Verdict(a.currentHead, readiness, os,
            if readiness.state == WaitingForChecks then readiness.blocking else [], ActionsFor(os))
  }

  /** The exported context agrees with the verdict. */
  lemma ExportIsVerdict(a: State, snapshot: seq<Check>)
    requires a.Valid()
    ensures var v, c := VerdictOf(a, snapshot), ToCIFeedback(a, EvaluateReadiness(a, snapshot), snapshot);
            && c.currentHead == v.head && c.readiness == v.readiness.state
            && c.currentObservations == v.observations && c.pendingChecks == v.pending
  {
  }

  lemma ObservationsIgnoreFlags(runs: seq<RunRecord>)
    ensures Map(FromRecord, runs) == Map(FromRecord, Map(Unflagged, runs))
  {
  }

  /** The verdict needs no more of an aggregate than its head and the events filed under that head. */
  lemma VerdictNeedsOnlyHeadRuns(a: State, b: State, snapshot: seq<Check>)
    requires a.currentHead == b.currentHead
    requires Map(Unflagged, a.Runs(a.currentHead)) == Map(Unflagged, b.Runs(a.currentHead))
    ensures VerdictOf(a, snapshot) == VerdictOf(b, snapshot)
  {
    ObservationsIgnoreFlags(a.Runs(a.currentHead));
    ObservationsIgnoreFlags(b.Runs(a.currentHead));
  }

  /** Interleaving does not change the verdict, whatever the check snapshot. */
  lemma ArrivalOrderKeepsVerdict(first: PREvent, log: seq<Entry>, log': seq<Entry>, snapshot: seq<Check>)
    requires FromPREvent(first).Success?
    requires HeadEvents(log) == HeadEvents(log')
    requires forall sha: string :: CIEventsFor(log, sha) == CIEventsFor(log', sha)
    ensures var a0 := FromPREvent(first).value;
            VerdictOf(Run(a0, log), snapshot) == VerdictOf(Run(a0, log'), snapshot)
  {
    var a0 := FromPREvent(first).value;
    ArrivalOrderDoesNotMatter(first, log, log');
    VerdictNeedsOnlyHeadRuns(Run(a0, log), Run(a0, log'), snapshot);
  }

  /** The log without the CI events of every commit but `head`. */
  function WithoutStaleCI(log: seq<Entry>, head: string): seq<Entry> {
    if log == [] then [] else
      var rest, last := WithoutStaleCI(log[..|log| - 1], head), log[|log| - 1];
      if last.CIDone? && last.ci.commitSha != head then rest else rest + [last]
  }

  lemma {:induction false} WithoutStaleCIKeeps(log: seq<Entry>, head: string)
    ensures HeadEvents(WithoutStaleCI(log, head)) == HeadEvents(log)
    ensures CIEventsFor(WithoutStaleCI(log, head), head) == CIEventsFor(log, head)
  {
    if log != [] {
      var l, last := log[..|log| - 1], log[|log| - 1];
      WithoutStaleCIKeeps(l, head);
      var rest := WithoutStaleCI(l, head);
      assert (rest + [last])[..|rest|] == rest;
    }
  }

  /** Stale CI never affects the current verdict: dropping every CI event of another commit than the final
      head, or inserting any, leaves head, readiness, observations and actions as they are. */
  lemma StaleCIDoesNotInterfere(first: PREvent, log: seq<Entry>, snapshot: seq<Check>)
    requires FromPREvent(first).Success?
    ensures var a0 := FromPREvent(first).value;
            var head := Run(a0, log).currentHead;
            VerdictOf(Run(a0, log), snapshot) == VerdictOf(Run(a0, WithoutStaleCI(log, head)), snapshot)
  {
    var a0 := FromPREvent(first).value;
    var head := Run(a0, log).currentHead;
    var kept := WithoutStaleCI(log, head);
    WithoutStaleCIKeeps(log, head);
    HeadIsFilteredLog(a0, log);
    HeadIsFilteredLog(a0, kept);
    RunsAreFilteredLog(first, log, head);
    RunsAreFilteredLog(first, kept, head);
    VerdictNeedsOnlyHeadRuns(Run(a0, log), Run(a0, kept), snapshot);
  }

  /** The verdict's observations, read off the log: the head's CI events merged with the head's checks. */
  lemma ObservationsAreFilteredLog(first: PREvent, log: seq<Entry>, snapshot: seq<Check>)
    requires FromPREvent(first).Success?
    ensures var a0 := FromPREvent(first).value;
            var head := LastHead(a0.currentHead, HeadEvents(log));
            VerdictOf(Run(a0, log), snapshot).observations
              == Merged(Map(FromRecord, Map(RecordOf, CIEventsFor(log, head))), Map(FromCheck, ChecksOf(head, snapshot)))
  {
    var a0 := FromPREvent(first).value;
    HeadIsFilteredLog(a0, log);
    var head := LastHead(a0.currentHead, HeadEvents(log));
    RunsAreFilteredLog(first, log, head);
    ObservationsIgnoreFlags(Run(a0, log).Runs(head));
  }

  /** Evidence of one commit, as filed. */
  function EvidenceOf(a: State, sha: string): HistoricalEvidence {
    HistoricalEvidence(sha, Map(FromRecord, a.Runs(sha)))
  }

  lemma OneCommit(a: State, order: seq<string>)
    requires order != [] && forall s <- order :: s in a.revisions && a.revisions[s].headSha == s
    ensures EvidenceOf(a, order[0]).headSha == order[0]
    ensures Historical(a, order)
         == (if order[0] != a.currentHead && a.Runs(order[0]) != [] then [EvidenceOf(a, order[0])] else [])
            + Historical(a, order[1..])
  {
    assert order[0] in order;
  }

  /** The evidence lists exactly the commits that have runs and are not the head, each once. */
  lemma {:induction false} HistoricalIs(a: State, order: seq<string>)
    requires NoDuplicates(order) && forall s <- order :: s in a.revisions && a.revisions[s].headSha == s
    ensures forall h :: h in Historical(a, order)
                   <==> h.headSha in order && h.headSha != a.currentHead && a.Runs(h.headSha) != []
                        && h == EvidenceOf(a, h.headSha)
    ensures var hs := Historical(a, order); forall i, j :: 0 <= i < j < |hs| ==> hs[i].headSha != hs[j].headSha
  {
    if order != [] {
      hide EvidenceOf;
      var rest := order[1..];
      assert forall i :: 0 <= i < |rest| ==> rest[i] == order[i + 1];
      HistoricalIs(a, rest);
      OneCommit(a, order);
      assert order[0] !in rest && forall s :: s in order <==> s == order[0] || s in rest;
      forall h <- Historical(a, rest) ensures h.headSha != order[0] {
        assert h.headSha in rest;
      }
    }
  }

  /** The evidence of one commit, read off the log. */
  function LoggedEvidence(log: seq<Entry>, sha: string): HistoricalEvidence {
    HistoricalEvidence(sha, Map(FromRecord, Map(RecordOf, CIEventsFor(log, sha))))
  }

  /** Stale CI is kept, and nothing else is: the historical evidence holds exactly one entry for each commit that
      had CI events and is not the head, with all of them in order. */
  lemma StaleCIIsKept(first: PREvent, log: seq<Entry>)
    requires FromPREvent(first).Success?
    ensures var a := Run(FromPREvent(first).value, log);
            && a.Valid()
            && (forall h :: h in Historical(a, a.order)
                       <==> h.headSha != a.currentHead && CIEventsFor(log, h.headSha) != []
                            && h == LoggedEvidence(log, h.headSha))
            && (var hs := Historical(a, a.order); forall i, j :: 0 <= i < j < |hs| ==> hs[i].headSha != hs[j].headSha)
  {
    var a0 := FromPREvent(first).value;
    var a := Run(a0, log);
    RunKeepsValid(a0, log);
    hide Run, FromPREvent, Historical;
    forall s <- a.order ensures s in a.revisions && a.revisions[s].headSha == s {
      assert a.RevisionValid(s, a.revisions[s]);
    }
    HistoricalIs(a, a.order);
    forall sha: string
      ensures EvidenceOf(a, sha) == LoggedEvidence(log, sha)
      ensures a.Runs(sha) != [] <==> CIEventsFor(log, sha) != []
      ensures a.Runs(sha) != [] ==> sha in a.order
    {
      RunsAreFilteredLog(first, log, sha);
      ObservationsIgnoreFlags(a.Runs(sha));
      assert |Map(Unflagged, a.Runs(sha))| == |CIEventsFor(log, sha)|;
    }
  }

  /** The exported context, read off the log and the snapshot: the last named head, its CI merged with its checks,
      and the evidence of every other commit. */
  lemma ExportIsFilteredLog(first: PREvent, log: seq<Entry>, snapshot: seq<Check>)
    requires FromPREvent(first).Success?
    ensures var a0 := FromPREvent(first).value;
            var a, head := Run(a0, log), LastHead(a0.currentHead, HeadEvents(log));
            && a.Valid()
            && var c := ToCIFeedback(a, EvaluateReadiness(a, snapshot), snapshot);
               && c.currentHead == head
               && c.currentObservations == Merged(Map(FromRecord, Map(RecordOf, CIEventsFor(log, head))),
                                                  Map(FromCheck, ChecksOf(head, snapshot)))
               && c.readiness == VerdictOf(a, snapshot).readiness.state
               && c.pendingChecks == VerdictOf(a, snapshot).pending
               && (forall h :: h in c.historical
                          <==> h.headSha != head && CIEventsFor(log, h.headSha) != []
                               && h == LoggedEvidence(log, h.headSha))
  {
    hide Run, FromPREvent, Merged, Historical, HeadEvents;
    HeadIsFilteredLog(FromPREvent(first).value, log);
    ObservationsAreFilteredLog(first, log, snapshot);
    StaleCIIsKept(first, log);
    ExportIsVerdict(Run(FromPREvent(first).value, log), snapshot);
  }
}
