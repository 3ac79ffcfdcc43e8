/** When does a failing current-head check reach the strategy? Coverage in the merge is by key, not by
    conclusion, so a recorded success can hide it; this module says exactly when. */
module FailureCoverage {
  import opened Basics
  import opened Events
  import opened Aggregate
  import opened AggregateLog
  import opened Feedback
  import opened CurrentVerdict
  import Text

  predicate Fails(o: Observation) {
    ActionWord(Conclusion(o))
  }

  /** An observation that makes the strategy speak about `name`. */
  predicate Raises(o: Observation, name: string) {
    Fails(o) && (o.workflowName == name || name in o.failedJobs)
  }

  predicate Names(act: Action, name: string) {
    match act
    case ReviewWorkflow(w, _) => w == name
    case PrioritizeJob(_, j) => j == name
  }

  function Naming(name: string): Action -> bool {
    act => Names(act, name)
  }

  function Raising(name: string): Observation -> bool {
    o => Raises(o, name)
  }

  lemma {:induction false} JobActionsName(o: Observation, jobs: seq<string>, name: string)
    ensures Any(Naming(name), JobActions(o, jobs)) <==> name in jobs
  {
    if jobs != [] {
      var rest, last := jobs[..|jobs| - 1], jobs[|jobs| - 1];
      JobActionsName(o, rest, name);
      var act := PrioritizeJob(o.workflowName, last);
      AnyAppended(Naming(name), JobActions(o, rest), [act]);
      assert act in [act];
      assert jobs == rest + [last];
    }
  }

  lemma ListedActionsName(o: Observation, conclusion: string, name: string)
    ensures Any(Naming(name), [ReviewWorkflow(o.workflowName, conclusion)] + JobActions(o, o.failedJobs))
       <==> o.workflowName == name || name in o.failedJobs
  {
    var act := ReviewWorkflow(o.workflowName, conclusion);
    JobActionsName(o, o.failedJobs, name);
    AnyAppended(Naming(name), [act], JobActions(o, o.failedJobs));
    AnyAppended(Naming(name), [], [act]);
    assert Naming(name)(act) <==> o.workflowName == name;
  }

  lemma ActionsOfName(o: Observation, name: string)
    ensures Any(Naming(name), ActionsOf(o)) <==> Raises(o, name)
  {
    ListedActionsName(o, Conclusion(o), name);
  }

  /** The strategy speaks about `name` iff a failing observation has that workflow name or failed job. */
  lemma ActionsName(os: seq<Observation>, name: string)
    ensures Any(Naming(name), ActionsFor(os)) <==> Any(Raising(name), os)
  {
    forall o <- os ensures Any(Naming(name), ActionsOf(o)) <==> Raising(name)(o) {
      ActionsOfName(o, name);
    }
    AnyFlatMap(ActionsOf, Naming(name), Raising(name), os);
  }

  /** The first observation with a key. */
  function FirstWithKey(os: seq<Observation>, key: (string, string)): (r: Option<Observation>)
    ensures r.Some? <==> HasKey(os, key)
    ensures r.Some? ==> r.value in os && Key(r.value) == key
  {
    if os == [] then None
    else if Key(os[0]) == key then Some(os[0])
    else FirstWithKey(os[1..], key)
  }

  lemma {:induction false} FirstWithKeyAppended(os: seq<Observation>, o: Observation, key: (string, string))
    ensures FirstWithKey(os + [o], key)
         == if HasKey(os, key) then FirstWithKey(os, key) else if Key(o) == key then Some(o) else None
  {
    if os == [] {
      assert os + [o] == [o];
    } else {
      assert (os + [o])[1..] == os[1..] + [o];
      FirstWithKeyAppended(os[1..], o, key);
      assert Key(os[0]) == key ==> HasKey(os, key);
    }
  }

  /** The observation of a given key that is merged in is the first one, unless a record covers it. */
  lemma {:induction false} FreshAny(
    records: seq<Observation>, os: seq<Observation>, key: (string, string), p: Observation -> bool)
    requires forall o <- os :: p(o) ==> Key(o) == key
    ensures Any(p, Fresh(records, os))
       <==> var o := FirstWithKey(os, key); o.Some? && !Covered(records, o.value) && p(o.value)
  {
    if os != [] {
      var rest, last := os[..|os| - 1], os[|os| - 1];
      FreshAny(records, rest, key, p);
      assert os == rest + [last];
      FirstWithKeyAppended(rest, last, key);
      AnyAppended(p, Fresh(records, rest), [last]);
    }
  }

  /** The first check of a name. */
  function FirstNamed(checks: seq<Check>, name: string): (r: Option<Check>)
    ensures r.Some? ==> r.value in checks && r.value.name == name
    ensures r.None? ==> forall c <- checks :: c.name != name
  {
    if checks == [] then None
    else if checks[0].name == name then Some(checks[0])
    else FirstNamed(checks[1..], name)
  }

  lemma {:induction false} FirstNamedIsFirstWithKey(checks: seq<Check>, head: string, name: string)
    requires forall c <- checks :: c.headSha == head
    requires FirstNamed(checks, name).Some?
    ensures FirstWithKey(Map(FromCheck, checks), (name, head)) == Some(FromCheck(FirstNamed(checks, name).value))
  {
    var os := Map(FromCheck, checks);
    if checks[0].name != name {
      assert os[1..] == Map(FromCheck, checks[1..]);
      FirstNamedIsFirstWithKey(checks[1..], head, name);
    }
  }

  /** A recorded run stands for `name` in the merge, whatever its conclusion. */
  predicate RunCovers(r: RunRecord, name: string) {
    r.workflowName == name || (r.commitSha != "" && name != "" && name in r.failedJobs)
  }

  /** A failing current-head check is named by some action iff a failing recorded run speaks about it, or
      no recorded run stands for it and the first check of its name in the snapshot is itself acted on.
      Otherwise the failure never reaches the strategy although readiness reports it. */
  lemma FailingCheckIsActedOnIff(a: State, snapshot: seq<Check>, c: Check)
    requires a.Valid() && c in snapshot && c.headSha == a.currentHead && c.IsFailure()
    ensures var runs := a.Runs(a.currentHead);
            (Any(Naming(c.name), VerdictOf(a, snapshot).actions)
       <==> || (exists r <- runs :: Raises(FromRecord(r), c.name))
            || (&& (forall r <- runs :: !RunCovers(r, c.name))
                && Fails(FromCheck(FirstNamed(ChecksOf(a.currentHead, snapshot), c.name).value))))
  {
    var runs, checks := a.Runs(a.currentHead), ChecksOf(a.currentHead, snapshot);
    var records, fromChecks := Map(FromRecord, runs), Map(FromCheck, checks);
    ActionsName(CurrentObservations(a, snapshot), c.name);
    AnyAppended(Raising(c.name), records, Fresh(records, fromChecks));
    RaisedByName(checks, a.currentHead, c.name);
    FreshAny(records, fromChecks, (c.name, a.currentHead), Raising(c.name));
    FirstNamedIsFirstWithKey(checks, a.currentHead, c.name);
    AnyMap(FromRecord, Raising(c.name), runs);
    assert c in checks;
    assert a.RevisionValid(a.currentHead, a.revisions[a.currentHead]);
    RunsCover(runs, FirstNamed(checks, c.name).value);
  }

  /** A check observation only speaks about its own name. */
  lemma RaisedByName(checks: seq<Check>, head: string, name: string)
    requires forall c <- checks :: c.headSha == head
    ensures forall o <- Map(FromCheck, checks) :: Raising(name)(o) ==> Key(o) == (name, head)
  {
    var os := Map(FromCheck, checks);
    forall o | o in os && Raising(name)(o) ensures Key(o) == (name, head) {
      var i :| 0 <= i < |os| && os[i] == o;
      assert checks[i] in checks;
    }
  }

  lemma RunsCover(runs: seq<RunRecord>, c: Check)
    requires forall r <- runs :: r.commitSha == c.headSha
    ensures Covered(Map(FromRecord, runs), FromCheck(c)) <==> exists r <- runs :: RunCovers(r, c.name)
  {
    var records := Map(FromRecord, runs);
    if Covered(records, FromCheck(c)) {
      var o :| o in records && (Key(o) == Key(FromCheck(c)) || NamesFailedJob(o, FromCheck(c)));
      var i :| 0 <= i < |records| && records[i] == o;
      assert RunCovers(runs[i], c.name);
    }
    if r :| r in runs && RunCovers(r, c.name) {
      var i :| 0 <= i < |runs| && runs[i] == r;
      assert records[i] in records;
    }
  }

  lemma RunOfOne(a: State, entry: Entry)
    ensures Run(a, [entry]) == Step(a, entry)
  {
    hide Step;
    assert [entry][..0] == [];
    assert Run(a, []) == a;
  }

  lemma SuccessIsNoActionWord(word: string)
    requires word == "success"
    ensures !ActionWord(word)
  {
    assert |word| == 7 && word[0] == 's' && "failure"[0] == 'f';
  }

  lemma SuccessIsNoFailure(o: Observation)
    requires o.conclusion == "success"
    ensures !Fails(o)
  {
    Text.TrimmedIsFixed("success");
    LowerSuccess();
    hide ActionWord, Text.Strip, Text.Lower;
    SuccessIsNoActionWord("success");
  }

  lemma LowerSuccess()
    ensures Text.Lower("success") == "success"
  {
  }

  lemma FailureFails(c: Check)
    requires c.status == CheckStatus.Completed && c.conclusion == Some("failure")
    ensures c.IsFailure() && !c.IsPending()
  {
    assert Text.Lower("failure") == "failure";
  }

  /** A recorded run of the head that stands for a name, with no recorded run failing under it, hides a failing check
      of that name: no action names it, while readiness reports failed checks as soon as none is pending. */
  lemma RunHidesFailure(a: State, snapshot: seq<Check>, r: RunRecord, c: Check)
    requires a.Valid() && r in a.Runs(a.currentHead) && RunCovers(r, c.name)
    requires forall x <- a.Runs(a.currentHead) :: !Raises(FromRecord(x), c.name)
    requires c in snapshot && c.headSha == a.currentHead && c.IsFailure()
    ensures (forall d <- snapshot :: d.headSha == a.currentHead ==> !d.IsPending())
            <==> EvaluateReadiness(a, snapshot).state == ChecksFailed
    ensures !Any(Naming(c.name), VerdictOf(a, snapshot).actions)
  {
    hide State.Valid, Raises, Check.IsFailure, Check.IsPending, EvaluateReadiness, VerdictOf, RunCovers, State.Runs;
    ReadinessMeaning(a, snapshot);
    FailingCheckIsActedOnIff(a, snapshot, c);
  }

  lemma OneRunHidesFailure(a: State, r: RunRecord, c: Check)
    requires a.Valid() && a.Runs(a.currentHead) == [r] && r.workflowName == c.name
    requires !Fails(FromRecord(r)) && c.headSha == a.currentHead && c.IsFailure() && !c.IsPending()
    ensures EvaluateReadiness(a, [c]).state == ChecksFailed
    ensures !Any(Naming(c.name), VerdictOf(a, [c]).actions)
  {
    hide State.Valid, State.Runs, Fails, Check.IsFailure, Check.IsPending, EvaluateReadiness, VerdictOf;
    assert c in [c] && r in a.Runs(a.currentHead);
    assert forall x <- a.Runs(a.currentHead) :: x == r;
    RunHidesFailure(a, [c], r, c);
  }

  lemma RecordedOnce(first: PREvent, ci: CICompleted)
    requires HeadShaFor(first) == Success(ci.commitSha)
    ensures var a := Run(FromPREvent(first).value, [CIDone(ci)]);
            && a.Valid() && a.currentHead == ci.commitSha
            && a.Runs(ci.commitSha) == [RecordFromEvent(ci, ci.commitSha)]
  {
    var a0, record := FromPREvent(first).value, RecordFromEvent(ci, ci.commitSha);
    RunOfOne(a0, CIDone(ci));
    RunKeepsValid(a0, [CIDone(ci)]);
    RunsAfterStep(a0, CIDone(ci), ci.commitSha);
    assert a0.currentHead == ci.commitSha && a0.Runs(ci.commitSha) == [];
    assert [] + [record] == [record];
  }

  /** For one: a workflow of the head was recorded as a success, and its check now reports a failure. Readiness says
      that checks failed, and no action names the check. */
  lemma RecordedSuccessHidesFailure(first: PREvent, ci: CICompleted)
    requires HeadShaFor(first) == Success(ci.commitSha) && ci.conclusion == "success" && ci.failedJobs == []
    ensures var a := Run(FromPREvent(first).value, [CIDone(ci)]);
            var snapshot := [Check(ci.workflowName, CheckStatus.Completed, Some("failure"), ci.commitSha)];
            && EvaluateReadiness(a, snapshot).state == ChecksFailed
            && !Any(Naming(ci.workflowName), VerdictOf(a, snapshot).actions)
  {
    var record := RecordFromEvent(ci, ci.commitSha);
    var c := Check(ci.workflowName, CheckStatus.Completed, Some("failure"), ci.commitSha);
    FailureFails(c);
    SuccessIsNoFailure(FromRecord(record));
    RecordedOnce(first, ci);
    hide Run, State.Valid, State.Runs, Fails, Check.IsFailure, Check.IsPending, EvaluateReadiness, VerdictOf, HeadShaFor;
    OneRunHidesFailure(Run(FromPREvent(first).value, [CIDone(ci)]), record, c);
  }
}
