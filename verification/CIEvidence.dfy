/** What logged CI events lead to, in their own fields: the runs on file, the exported observations and evidence, and
    the strategy's actions. */
module CIEvidence {
  import opened Basics
  import opened Events
  import opened Aggregate
  import opened AggregateLog
  import opened AggregateOrder
  import opened Feedback
  import opened CurrentVerdict

  /** The run on file tells what the event told. */
  ghost predicate Files(r: RunRecord, e: CICompleted) {
    && r.eventId == e.meta.eventId && r.workflowName == e.workflowName && r.conclusion == e.conclusion
    && r.runUrl == e.runUrl && r.failedJobs == e.failedJobs && r.commitSha == e.commitSha
  }

  /** And so does the observation. */
  ghost predicate Tells(o: Observation, e: CICompleted) {
    && o.workflowName == e.workflowName && o.conclusion == e.conclusion && o.runUrl == e.runUrl
    && o.failedJobs == e.failedJobs && o.commitSha == e.commitSha
  }

  /** What a CI event leads to. */
  ghost predicate Prompts(e: CICompleted, act: Action) {
    exists word :: OneOfFive(word) && Says(e.conclusion, word)
                   && (|| act == ReviewWorkflow(e.workflowName, word)
                       || (act.PrioritizeJob? && act.workflow == e.workflowName && act.job in e.failedJobs))
  }

  /** The runs of a commit are its CI events, in order and none missing. */
  lemma RunsTellEvents(first: PREvent, log: seq<Entry>, sha: string)
    requires FromPREvent(first).Success?
    ensures var runs, es := Run(FromPREvent(first).value, log).Runs(sha), CIEventsFor(log, sha);
            |runs| == |es| && forall i :: 0 <= i < |es| ==> Files(runs[i], es[i])
  {
    RunsAreFilteredLog(first, log, sha);
    var runs, es := Run(FromPREvent(first).value, log).Runs(sha), CIEventsFor(log, sha);
    hide Run, FromPREvent, CIEventsFor;
    assert |Map(Unflagged, runs)| == |Map(RecordOf, es)|;
    forall i | 0 <= i < |es| ensures Files(runs[i], es[i]) {
      assert Unflagged(runs[i]) == Map(Unflagged, runs)[i] == Map(RecordOf, es)[i] == RecordOf(es[i]);
    }
  }

  /** The observations of the verdict, and of the exported context, start with the CI events of the head in order. */
  lemma ObservationsTellEvents(first: PREvent, log: seq<Entry>, snapshot: seq<Check>)
    requires FromPREvent(first).Success?
    ensures var a := Run(FromPREvent(first).value, log);
            var os, es := VerdictOf(a, snapshot).observations, CIEventsFor(log, a.currentHead);
            && a.Valid()
            && ToCIFeedback(a, EvaluateReadiness(a, snapshot), snapshot).currentObservations == os
            && |os| >= |es| && (forall i :: 0 <= i < |es| ==> Tells(os[i], es[i]))
            && (ChecksOf(a.currentHead, snapshot) == [] ==> |os| == |es|)
  {
    var a := Run(FromPREvent(first).value, log);
    RunKeepsValid(FromPREvent(first).value, log);
    RunsTellEvents(first, log, a.currentHead);
    ExportIsVerdict(a, snapshot);
    hide Run, FromPREvent, CIEventsFor, EvaluateReadiness, ToCIFeedback;
    VerdictRuns(a, snapshot);
  }

  lemma VerdictRuns(a: State, snapshot: seq<Check>)
    ensures var os, runs := VerdictOf(a, snapshot).observations, a.Runs(a.currentHead);
            && |os| >= |runs|
            && (forall i :: 0 <= i < |runs| ==> os[i] == FromRecord(runs[i]))
            && (ChecksOf(a.currentHead, snapshot) == [] ==> |os| == |runs|)
  {
    hide EvaluateReadiness, State.Runs, FromRecord, ChecksOf;
    var records := Map(FromRecord, a.Runs(a.currentHead));
    assert Map(FromCheck, []) == [] && Fresh(records, []) == [];
  }

  /** The historical evidence: one entry for each other commit that had CI events, telling all of them in order. */
  lemma EvidenceTellsEvents(first: PREvent, log: seq<Entry>, sha: string)
    requires FromPREvent(first).Success?
    ensures var a := Run(FromPREvent(first).value, log);
            && a.Valid()
            && var hs, es := Historical(a, a.order), CIEventsFor(log, sha);
               && (sha != a.currentHead && es != [] <==> exists h <- hs :: h.headSha == sha)
               && (forall h <- hs :: h.headSha == sha ==>
                     |h.observations| == |es| && forall i :: 0 <= i < |es| ==> Tells(h.observations[i], es[i]))
  {
    StaleCIIsKept(first, log);
    var a := Run(FromPREvent(first).value, log);
    var hs, es := Historical(a, a.order), CIEventsFor(log, sha);
    hide Run, FromPREvent, CIEventsFor, Historical;
    if sha != a.currentHead && es != [] {
      assert LoggedEvidence(log, sha) in hs && LoggedEvidence(log, sha).headSha == sha;
    }
  }

  /** Every CI event of the head whose conclusion is one of the five words, in any case, prompts the review of its
      workflow and of each failed job, whatever the checks say. */
  lemma CIEventPrompts(first: PREvent, log: seq<Entry>, snapshot: seq<Check>, i: nat, act: Action)
    requires FromPREvent(first).Success?
    requires var head := Run(FromPREvent(first).value, log).currentHead;
             i < |CIEventsFor(log, head)| && Prompts(CIEventsFor(log, head)[i], act)
    ensures act in VerdictOf(Run(FromPREvent(first).value, log), snapshot).actions
  {
    ObservationsTellEvents(first, log, snapshot);
    var a := Run(FromPREvent(first).value, log);
    var o, e := VerdictOf(a, snapshot).observations[i], CIEventsFor(log, a.currentHead)[i];
    hide Run, FromPREvent, CIEventsFor;
    VerdictActs(a, snapshot);
    hide VerdictOf, ToCIFeedback, EvaluateReadiness, ActionsFor, Tells, Prompts, LeadsTo;
    SameAct(o, e, act);
    ActionsIff(VerdictOf(a, snapshot).observations, act);
  }

  lemma SameAct(o: Observation, e: CICompleted, act: Action)
    requires Tells(o, e)
    ensures Prompts(e, act) <==> LeadsTo(o, act)
  {
    hide Says, OneOfFive;
  }

  lemma VerdictActs(a: State, snapshot: seq<Check>)
    ensures VerdictOf(a, snapshot).actions == ActionsFor(VerdictOf(a, snapshot).observations)
  {
    hide EvaluateReadiness, CurrentObservations, ActionsFor;
  }

  /** Without checks of the head nothing else is prompted: any other conclusion yields no action. */
  lemma OnlyCIEventsPrompt(first: PREvent, log: seq<Entry>, snapshot: seq<Check>, act: Action)
    requires FromPREvent(first).Success?
    requires ChecksOf(Run(FromPREvent(first).value, log).currentHead, snapshot) == []
    ensures var a := Run(FromPREvent(first).value, log);
            act in VerdictOf(a, snapshot).actions <==> exists e <- CIEventsFor(log, a.currentHead) :: Prompts(e, act)
  {
    ObservationsTellEvents(first, log, snapshot);
    var a := Run(FromPREvent(first).value, log);
    var os, es := VerdictOf(a, snapshot).observations, CIEventsFor(log, a.currentHead);
    VerdictActs(a, snapshot);
    hide *;
    ActionsIff(os, act);
    ActAlike(os, es, act);
  }

  lemma ActAlike(os: seq<Observation>, es: seq<CICompleted>, act: Action)
    requires |os| == |es| && forall i :: 0 <= i < |es| ==> Tells(os[i], es[i])
    ensures (exists o <- os :: LeadsTo(o, act)) <==> (exists e <- es :: Prompts(e, act))
  {
    hide Tells, Prompts, LeadsTo;
    forall k | 0 <= k < |es| ensures Prompts(es[k], act) <==> LeadsTo(os[k], act) {
      SameAct(os[k], es[k], act);
    }
    if e :| e in es && Prompts(e, act) {
      var k :| 0 <= k < |es| && es[k] == e;
      assert os[k] in os;
    }
    if o :| o in os && LeadsTo(o, act) {
      var k :| 0 <= k < |os| && os[k] == o;
      assert es[k] in es;
    }
  }
}
