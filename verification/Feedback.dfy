/** Readiness, merged current-head observations and the strategy actions drawn from them
    (pr_aggregate.py and src/core/strategy/rules.py). */
module Feedback {
  import opened Basics
  import opened Aggregate
  import Text

  datatype CheckStatus = Unknown | Queued | InProgress | Pending | Completed {
    function Word(): string {
      match this
      case Unknown => "unknown"
      case Queued => "queued"
      case InProgress => "in_progress"
      case Pending => "pending"
      case Completed => "completed"
    }
  }

  function NormalizeStatus(text: string): CheckStatus {
    var word := Text.Lower(Text.Strip(text));
    if word == "requested" || word == "waiting" then Pending
    else if word == "queued" then Queued
    else if word == "in_progress" then InProgress
    else if word == "pending" then Pending
    else if word == "completed" then Completed
    else Unknown
  }

  predicate FailureWord(word: string) {
    word in {"action_required", "failure", "startup_failure", "timed_out"}
  }

  datatype Check = Check(name: string, status: CheckStatus, conclusion: Option<string>, headSha: string) {
    predicate IsPending() {
      !status.Completed?
    }

    predicate IsFailure() {
      status.Completed? && FailureWord(Text.Lower(if conclusion.Some? then conclusion.value else ""))
    }
  }

  /** `CheckRunSnapshot.from_result`. */
  function CheckFromResult(name: string, status: string, conclusion: string, headSha: string): Check {
    Check(name, NormalizeStatus(status), if conclusion == "" then None else Some(conclusion), headSha)
  }

  /** A check as the provider reports it: pending unless its status says completed, failed if its conclusion is one of
      four words as well; white space around the status and letter case do not matter. */
  lemma ResultMeaning(name: string, status: string, conclusion: string, headSha: string)
    ensures var c := CheckFromResult(name, status, conclusion, headSha);
            && (c.name, c.headSha) == (name, headSha)
            && (c.IsPending() <==> !Text.SameLetters(Text.Strip(status), "completed"))
            && (c.IsFailure()
                <==> && !c.IsPending()
                     && (|| Text.SameLetters(conclusion, "failure") || Text.SameLetters(conclusion, "timed_out")
                         || Text.SameLetters(conclusion, "action_required")
                         || Text.SameLetters(conclusion, "startup_failure")))
  {
    hide Text.Strip, Text.SameLetters, Text.Lower;
    Text.LowerIs(Text.Strip(status), "completed");
    LowerNothing();
    LowerWords(conclusion);
  }

  lemma LowerNothing()
    ensures Text.Lower("") == ""
  {
  }

  /** Lowered, a text is one of the words exactly if it has the same letters. */
  lemma LowerWords(text: string)
    ensures Text.Lower(text) == "failure" <==> Text.SameLetters(text, "failure")
    ensures Text.Lower(text) == "timed_out" <==> Text.SameLetters(text, "timed_out")
    ensures Text.Lower(text) == "action_required" <==> Text.SameLetters(text, "action_required")
    ensures Text.Lower(text) == "startup_failure" <==> Text.SameLetters(text, "startup_failure")
    ensures Text.Lower(text) == "cancelled" <==> Text.SameLetters(text, "cancelled")
  {
    hide Text.SameLetters, Text.Lower;
    Text.LowerIs(text, "failure");
    Text.LowerIs(text, "timed_out");
    Text.LowerIs(text, "action_required");
    Text.LowerIs(text, "startup_failure");
    Text.LowerIs(text, "cancelled");
  }

  datatype ReadinessState = Ready | WaitingForChecks | ChecksFailed

  datatype Readiness = Readiness(state: ReadinessState, headSha: string, blocking: seq<string>)

  function ChecksOf(head: string, snapshot: seq<Check>): seq<Check> {
    Filter((c: Check) => c.headSha == head, snapshot)
  }

  function EvaluateReadiness(a: State, snapshot: seq<Check>): Readiness {
    var name := (c: Check) => c.name;
    var current := ChecksOf(a.currentHead, snapshot);
    var pending := Map(name, Filter((c: Check) => c.IsPending(), current));
    var failed := Map(name, Filter((c: Check) => c.IsFailure(), current));
    if pending != [] then Readiness(WaitingForChecks, a.currentHead, pending)
    else if failed != [] then Readiness(ChecksFailed, a.currentHead, failed)
    else Readiness(Ready, a.currentHead, [])
  }

  lemma ReadinessIs(a: State, snapshot: seq<Check>)
    ensures var current := ChecksOf(a.currentHead, snapshot);
            EvaluateReadiness(a, snapshot).state
              == if Filter((c: Check) => c.IsPending(), current) != [] then WaitingForChecks
                 else if Filter((c: Check) => c.IsFailure(), current) != [] then ChecksFailed else Ready
  {
  }

  /** The verdict in terms of the snapshot: only checks of the current head count, and pending beats failed. */
  lemma ReadinessMeaning(a: State, snapshot: seq<Check>)
    ensures EvaluateReadiness(a, snapshot).state == WaitingForChecks
       <==> exists c <- snapshot :: c.headSha == a.currentHead && c.IsPending()
    ensures EvaluateReadiness(a, snapshot).state == Ready
       <==> forall c <- snapshot :: c.headSha == a.currentHead ==> !c.IsPending() && !c.IsFailure()
  {
    ReadinessIs(a, snapshot);
    var current := ChecksOf(a.currentHead, snapshot);
    var pending := Filter((c: Check) => c.IsPending(), current);
    var failed := Filter((c: Check) => c.IsFailure(), current);
    if pending != [] {
      assert pending[0] in pending;
    }
    if failed != [] {
      assert failed[0] in failed;
    }
  }

  lemma InMapped<T, U>(f: T -> U, p: T -> bool, xs: seq<T>, y: U)
    ensures y in Map(f, Filter(p, xs)) <==> exists x <- xs :: p(x) && f(x) == y
  {
    var kept := Filter(p, xs);
    if y in Map(f, kept) {
      var i :| 0 <= i < |kept| && Map(f, kept)[i] == y;
      assert kept[i] in kept;
    }
    if x :| x in xs && p(x) && f(x) == y {
      assert x in kept;
      var i :| 0 <= i < |kept| && kept[i] == x;
      assert Map(f, kept)[i] == y;
    }
  }

  lemma BlockingIs(a: State, snapshot: seq<Check>)
    ensures var r, current := EvaluateReadiness(a, snapshot), ChecksOf(a.currentHead, snapshot);
            && r.headSha == a.currentHead
            && (r.state.WaitingForChecks? ==>
                  r.blocking == Map((c: Check) => c.name, Filter((c: Check) => c.IsPending(), current)))
            && (r.state.ChecksFailed? ==>
                  r.blocking == Map((c: Check) => c.name, Filter((c: Check) => c.IsFailure(), current)))
            && (r.state.Ready? ==> r.blocking == [])
  {
  }

  /** What blocks is named: exactly the pending checks of the head while any is pending, then exactly the failed. */
  lemma BlockingMeaning(a: State, snapshot: seq<Check>, name: string)
    ensures var r := EvaluateReadiness(a, snapshot);
            && (r.state.WaitingForChecks? ==>
                  (name in r.blocking <==>
                     exists c <- snapshot :: c.headSha == a.currentHead && c.IsPending() && c.name == name))
            && (r.state.ChecksFailed? ==>
                  (name in r.blocking <==>
                     exists c <- snapshot :: c.headSha == a.currentHead && c.IsFailure() && c.name == name))
            && (r.state.Ready? ==> r.blocking == [])
  {
    BlockingIs(a, snapshot);
    var current := ChecksOf(a.currentHead, snapshot);
    InMapped((c: Check) => c.name, (c: Check) => c.IsPending(), current, name);
    InMapped((c: Check) => c.name, (c: Check) => c.IsFailure(), current, name);
    assert forall c :: c in current <==> c in snapshot && c.headSha == a.currentHead;
  }

  datatype Observation = Observation(
    workflowName: string, conclusion: string, runUrl: string, failedJobs: seq<string>, commitSha: string)

  function FromRecord(r: RunRecord): Observation {
    Observation(r.workflowName, r.conclusion, r.runUrl, r.failedJobs, r.commitSha)
  }

  function FromCheck(c: Check): Observation {
    Observation(c.name,
                if c.conclusion.Some? && c.conclusion.value != "" then c.conclusion.value else c.status.Word(),
                "", if c.IsFailure() then [c.name] else [], c.headSha)
  }

  /** A provider's check as an observation: its conclusion, or what its status says when it has none; a failed check
      is its own failed job. */
  lemma CheckObservation(name: string, status: string, conclusion: string, headSha: string)
    ensures var c := CheckFromResult(name, status, conclusion, headSha);
            var o := FromCheck(c);
            && (o.workflowName, o.commitSha, o.runUrl) == (name, headSha, "")
            && (conclusion != "" ==> o.conclusion == conclusion)
            && o.failedJobs == (if c.IsFailure() then [name] else [])
    ensures var word, o := Text.Lower(Text.Strip(status)), FromCheck(CheckFromResult(name, status, "", headSha));
            && (word in {"queued", "in_progress", "pending", "completed"} ==> o.conclusion == word)
            && (word in {"requested", "waiting"} ==> o.conclusion == "pending")
            && (word !in {"queued", "in_progress", "pending", "completed", "requested", "waiting"} ==>
                  o.conclusion == "unknown")
  {
    hide Text.Lower, Text.Strip, Check.IsFailure;
  }

  function Key(o: Observation): (string, string) {
    (o.workflowName, o.commitSha)
  }

  /** A record already stands for the observation: by key, or by naming it as a failed job of its commit. */
  predicate Covered(records: seq<Observation>, o: Observation) {
    exists r <- records :: Key(r) == Key(o) || NamesFailedJob(r, o)
  }

  predicate NamesFailedJob(r: Observation, o: Observation) {
    r.commitSha == o.commitSha != "" && o.workflowName != "" && o.workflowName in r.failedJobs
  }

  predicate HasKey(os: seq<Observation>, key: (string, string)) {
    exists o <- os :: Key(o) == key
  }

  /** The checks worth adding: the first of every key that no record covers. */
  function Fresh(records: seq<Observation>, checks: seq<Observation>): (r: seq<Observation>)
    ensures forall o <- r :: o in checks
  {
    if checks == [] then [] else
      var rest, last := checks[..|checks| - 1], checks[|checks| - 1];
      if Covered(records, last) || HasKey(rest, Key(last)) then Fresh(records, rest)
      else Fresh(records, rest) + [last]
  }

  function Merged(records: seq<Observation>, checks: seq<Observation>): seq<Observation> {
    records + Fresh(records, checks)
  }

  /** `_merge_current_observations`: one pass with a growing list and a set of seen keys. */
  method MergeCurrentObservations(records: seq<Observation>, checks: seq<Observation>)
    returns (merged: seq<Observation>)
    ensures merged == Merged(records, checks)
  {
    merged := records;
    var seen := set r <- records :: Key(r);
    var recordedFailedJobs :=
      set r <- records, job <- r.failedJobs | r.commitSha != "" && job != "" :: (r.commitSha, job);
    for n := 0 to |checks|
      invariant merged == records + Fresh(records, checks[..n])
      invariant forall k :: k in seen <==> HasKey(records, k) || HasKey(Fresh(records, checks[..n]), k)
    {
      var check := checks[n];
      var key := Key(check);
      var failedJobKey := (check.commitSha, check.workflowName);
      ghost var before := checks[..n];
      assert checks[..n + 1][..n] == before;
      if !Covered(records, check) {
        FreshKeys(records, before, check);
      }
      if key in seen || failedJobKey in recordedFailedJobs {
        continue;
      }
      merged := merged + [check];
      seen := seen + {key};
    }
    assert checks[..|checks|] == checks;
  }

  lemma HasKeyAppended(os: seq<Observation>, o: Observation, key: (string, string))
    ensures HasKey(os + [o], key) <==> HasKey(os, key) || Key(o) == key
  {
    if HasKey(os, key) {
      var x :| x in os && Key(x) == key;
      assert x in os + [o];
    }
    assert o in os + [o];
  }

  /** For a key no record covers, some check has it iff some fresh check has it. */
  lemma {:induction false} FreshKeys(records: seq<Observation>, checks: seq<Observation>, o: Observation)
    requires !Covered(records, o)
    ensures HasKey(checks, Key(o)) <==> HasKey(Fresh(records, checks), Key(o))
  {
    if checks != [] {
      var rest, last := checks[..|checks| - 1], checks[|checks| - 1];
      FreshKeys(records, rest, o);
      assert checks == rest + [last];
      HasKeyAppended(rest, last, Key(o));
      HasKeyAppended(Fresh(records, rest), last, Key(o));
    }
  }

  /** Pairwise distinct in workflow and commit, and no record has the same or names it as a failed job. */
  ghost predicate AllNew(records: seq<Observation>, added: seq<Observation>) {
    && (forall i, j :: 0 <= i < j < |added| ==>
          added[i].workflowName != added[j].workflowName || added[i].commitSha != added[j].commitSha)
    && (forall o <- added, r <- records ::
          && (r.workflowName != o.workflowName || r.commitSha != o.commitSha)
          && !(r.commitSha == o.commitSha != "" && o.workflowName != "" && o.workflowName in r.failedJobs))
  }

  lemma OneMoreNew(records: seq<Observation>, added: seq<Observation>, o: Observation)
    requires AllNew(records, added) && !Covered(records, o) && !HasKey(added, Key(o))
    ensures AllNew(records, added + [o])
  {
    forall i | 0 <= i < |added| ensures Key(added[i]) != Key(o) {
      assert added[i] in added;
    }
  }

  /** The added checks are new, each in one way only. */
  lemma {:induction false} FreshAreDistinct(records: seq<Observation>, checks: seq<Observation>)
    ensures AllNew(records, Fresh(records, checks))
  {
    if checks != [] {
      var rest, last := checks[..|checks| - 1], checks[|checks| - 1];
      FreshAreDistinct(records, rest);
      if !Covered(records, last) && !HasKey(rest, Key(last)) {
        FreshKeys(records, rest, last);
        OneMoreNew(records, Fresh(records, rest), last);
      }
    }
  }

  /** No check is lost: each is in the result by key, or a record names it as a failed job of its commit. */
  lemma EveryCheckIsRepresented(records: seq<Observation>, checks: seq<Observation>, c: Observation)
    requires c in checks
    ensures HasKey(Merged(records, checks), Key(c)) || exists r <- records :: NamesFailedJob(r, c)
    ensures || (exists o <- Merged(records, checks) :: o.workflowName == c.workflowName && o.commitSha == c.commitSha)
            || (exists r <- records :: r.commitSha == c.commitSha && c.workflowName in r.failedJobs)
  {
    if Covered(records, c) {
      var r :| r in records && (Key(r) == Key(c) || NamesFailedJob(r, c));
      assert r in Merged(records, checks);
    } else {
      assert HasKey(checks, Key(c));
      FreshKeys(records, checks, c);
      var o :| o in Fresh(records, checks) && Key(o) == Key(c);
      assert o in Merged(records, checks);
    }
  }

  lemma {:induction false} NothingFresh(records: seq<Observation>, checks: seq<Observation>)
    requires forall c <- checks :: Covered(records, c)
    ensures Fresh(records, checks) == []
  {
    if checks != [] {
      NothingFresh(records, checks[..|checks| - 1]);
    }
  }

  /** Merging the same checks into the result again changes nothing. */
  lemma MergeIsIdempotent(records: seq<Observation>, checks: seq<Observation>)
    ensures Merged(Merged(records, checks), checks) == Merged(records, checks)
  {
    var merged := Merged(records, checks);
    forall c <- checks ensures Covered(merged, c) {
      EveryCheckIsRepresented(records, checks, c);
      if r :| r in records && NamesFailedJob(r, c) {
        assert r in merged;
      }
    }
    NothingFresh(merged, checks);
  }

  datatype HistoricalEvidence = HistoricalEvidence(headSha: string, observations: seq<Observation>)

  datatype CIFeedback = CIFeedback(
    currentHead: string, readiness: ReadinessState, currentObservations: seq<Observation>,
    historical: seq<HistoricalEvidence>, pendingChecks: seq<string>)

  function Historical(a: State, order: seq<string>): seq<HistoricalEvidence>
    requires forall sha <- order :: sha in a.revisions
  {
    if order == [] then [] else
      var rev := a.revisions[order[0]];
      (if rev.headSha != a.currentHead && rev.ciRuns != []
       then [HistoricalEvidence(rev.headSha, Map(FromRecord, rev.ciRuns))] else [])
      + Historical(a, order[1..])
  }

  function CurrentObservations(a: State, snapshot: seq<Check>): seq<Observation> {
    Merged(Map(FromRecord, a.Runs(a.currentHead)), Map(FromCheck, ChecksOf(a.currentHead, snapshot)))
  }

  function ToCIFeedback(a: State, readiness: Readiness, snapshot: seq<Check>): CIFeedback
    requires forall sha <- a.order :: sha in a.revisions
  {
    CIFeedback(a.currentHead, readiness.state, CurrentObservations(a, snapshot), Historical(a, a.order),
               if readiness.state == WaitingForChecks then readiness.blocking else [])
  }

  /** One strategy action of type CUSTOM: what it is about, and its priority. */
  datatype Action =
    | ReviewWorkflow(workflow: string, conclusion: string)
    | PrioritizeJob(workflow: string, job: string)
  {
    function Priority(): int {
      match this
      case ReviewWorkflow(_, c) => if FailureWord(c) then 4 else 3
      case PrioritizeJob(_, _) => 5
    }
  }

  /** A conclusion the strategy acts on; unlike FailureWord it includes `cancelled`. */
  predicate ActionWord(word: string) {
    FailureWord(word) || word == "cancelled"
  }

  function Conclusion(o: Observation): string {
    Text.Lower(Text.Strip(o.conclusion))
  }

  function JobActions(o: Observation, jobs: seq<string>): seq<Action> {
    if jobs == [] then [] else JobActions(o, jobs[..|jobs| - 1]) + [PrioritizeJob(o.workflowName, jobs[|jobs| - 1])]
  }

  function ActionsOf(o: Observation): seq<Action> {
    if !ActionWord(Conclusion(o)) then []
    else [ReviewWorkflow(o.workflowName, Conclusion(o))] + JobActions(o, o.failedJobs)
  }

  function ActionsFor(os: seq<Observation>): seq<Action> {
    FlatMap(ActionsOf, os)
  }

  /** A conclusion in any case, with white space around it. */
  predicate Says(conclusion: string, word: string) {
    Text.SameLetters(Text.Strip(conclusion), word)
  }

  lemma {:induction false} JobActionsList(o: Observation, jobs: seq<string>)
    ensures |JobActions(o, jobs)| == |jobs|
    ensures forall i :: 0 <= i < |jobs| ==> JobActions(o, jobs)[i] == PrioritizeJob(o.workflowName, jobs[i])
  {
    if jobs != [] {
      JobActionsList(o, jobs[..|jobs| - 1]);
    }
  }

  /** The five words that make the strategy act; stated apart from the code's own test. */
  predicate OneOfFive(word: string) {
    word in {"failure", "timed_out", "cancelled", "action_required", "startup_failure"}
  }

  /** One observation: its workflow and then each failed job in order if its conclusion is one of the five words,
      nothing otherwise. */
  lemma ActionsOfOne(o: Observation)
    ensures forall word | OneOfFive(word) && Says(o.conclusion, word) ::
              && |ActionsOf(o)| == 1 + |o.failedJobs|
              && ActionsOf(o)[0] == ReviewWorkflow(o.workflowName, word)
              && forall j :: 0 <= j < |o.failedJobs| ==>
                   ActionsOf(o)[j + 1] == PrioritizeJob(o.workflowName, o.failedJobs[j])
    ensures ActionsOf(o) != [] ==> exists word :: OneOfFive(word) && Says(o.conclusion, word)
  {
    SaidWord(o);
    hide ActionWord, Conclusion, OneOfFive, Says;
    JobActionsList(o, o.failedJobs);
  }

  lemma SaidWord(o: Observation)
    ensures forall word | OneOfFive(word) && Says(o.conclusion, word) :: Conclusion(o) == word && ActionWord(word)
    ensures ActionWord(Conclusion(o)) ==> OneOfFive(Conclusion(o)) && Says(o.conclusion, Conclusion(o))
  {
    hide Text.Lower, Text.SameLetters, Text.Strip;
    LowerWords(Text.Strip(o.conclusion));
  }

  /** What an observation leads to, in its own fields. */
  ghost predicate LeadsTo(o: Observation, act: Action) {
    exists word :: OneOfFive(word) && Says(o.conclusion, word)
                   && (|| act == ReviewWorkflow(o.workflowName, word)
                       || (act.PrioritizeJob? && act.workflow == o.workflowName && act.job in o.failedJobs))
  }

  lemma ActionsOfOneIff(o: Observation, act: Action)
    ensures act in ActionsOf(o) <==> LeadsTo(o, act)
  {
    hide Says, OneOfFive, ActionsOf;
    ActionsOfOne(o);
    if act in ActionsOf(o) {
      var word :| OneOfFive(word) && Says(o.conclusion, word);
      var k :| 0 <= k < |ActionsOf(o)| && ActionsOf(o)[k] == act;
      assert k > 0 ==> act == PrioritizeJob(o.workflowName, o.failedJobs[k - 1]);
    }
    if LeadsTo(o, act) {
      var word :| OneOfFive(word) && Says(o.conclusion, word)
                  && (|| act == ReviewWorkflow(o.workflowName, word)
                      || (act.PrioritizeJob? && act.workflow == o.workflowName && act.job in o.failedJobs));
      if act.PrioritizeJob? {
        var j :| 0 <= j < |o.failedJobs| && o.failedJobs[j] == act.job;
        assert ActionsOf(o)[j + 1] == act;
      } else {
        assert ActionsOf(o)[0] == act;
      }
    }
  }

  /** The actions are exactly what the observations lead to. */
  lemma {:induction false} ActionsIff(os: seq<Observation>, act: Action)
    ensures act in ActionsFor(os) <==> exists o <- os :: LeadsTo(o, act)
  {
    hide LeadsTo, ActionsOf;
    if os != [] {
      var rest, last := os[..|os| - 1], os[|os| - 1];
      ActionsIff(rest, act);
      ActionsOfOneIff(last, act);
      assert os == rest + [last];
    }
  }

  lemma {:induction false} JobActionsAre(o: Observation, jobs: seq<string>)
    ensures forall act <- JobActions(o, jobs) :: act.PrioritizeJob?
  {
    if jobs != [] {
      JobActionsAre(o, jobs[..|jobs| - 1]);
    }
  }

  /** Failed jobs outrank the workflows they are in, and a failed workflow outranks a cancelled one. */
  lemma {:induction false} ActionPriorities(os: seq<Observation>)
    ensures forall act <- ActionsFor(os) ::
              act.Priority() == if act.PrioritizeJob? then 5 else if act.conclusion == "cancelled" then 3 else 4
  {
    hide Conclusion;
    if os != [] {
      var rest, last := os[..|os| - 1], os[|os| - 1];
      ActionPriorities(rest);
      JobActionsAre(last, last.failedJobs);
      forall act <- ActionsFor(os)
        ensures act.Priority() == if act.PrioritizeJob? then 5 else if act.conclusion == "cancelled" then 3 else 4
      {
        assert act in ActionsFor(rest) || act in ActionsOf(last);
      }
    }
  }

  /** `_ci_feedback_actions`: one pass over the observations... */
  method CIFeedbackActions(feedback: Option<CIFeedback>) returns (actions: seq<Action>)
    ensures actions == if feedback.None? then [] else ActionsFor(feedback.value.currentObservations)
  {
    if feedback.None? {
      return [];
    }
    var os := feedback.value.currentObservations;
    actions := [];
    for n := 0 to |os|
      invariant actions == ActionsFor(os[..n])
    {
      assert os[..n + 1][..n] == os[..n];
      var more := ObservationActions(os[n]);
      actions := actions + more;
    }
    assert os[..|os|] == os;
  }

  method ObservationActions(o: Observation) returns (actions: seq<Action>)
    ensures actions == ActionsOf(o)
  {
    var conclusion := Conclusion(o);
    if !ActionWord(conclusion) {
      return [];
    }
    var jobActions := FailedJobActions(o);
    actions := [ReviewWorkflow(o.workflowName, conclusion)] + jobActions;
  }

  /** ...with an inner loop over the failed jobs of a failing one. */
  method FailedJobActions(o: Observation) returns (actions: seq<Action>)
    ensures actions == JobActions(o, o.failedJobs)
  {
    actions := [];
    var jobs := o.failedJobs;
    for k := 0 to |jobs|
      invariant actions == JobActions(o, jobs[..k])
    {
      assert jobs[..k + 1][..k] == jobs[..k];
      actions := actions + [PrioritizeJob(o.workflowName, jobs[k])];
    }
    assert jobs[..|jobs|] == jobs;
  }
}
