/** Workflow-scoped agent sessions (src/runtime/agent/manager.py). */
module AgentSessions {
  import opened Basics
  import opened Text

  datatype Status = Active | Completed | Failed | Cancelled | Expired

  datatype RunStatus = Succeeded | RunFailed | TimedOut | RunCancelled

  datatype Handle = Handle(
    sessionId: string, repo: string, prNumber: int, headSha: string, trigger: string, correlationId: string,
    providerId: string)

  datatype RunInput = RunInput(stage: string, correlationId: string, allowedTools: seq<string>)

  datatype RunResult = RunResult(status: RunStatus, error: string)

  datatype Turn = Turn(stage: string, correlationId: string, status: RunStatus, allowedTools: seq<string>, error: string)

  datatype Record = Record(handle: Handle, status: Status, turns: seq<Turn>, reason: string)

  /** The manager's fields; `order` is the insertion order of the record dictionary. */
  datatype Sessions = Sessions(order: seq<string>, records: map<string, Record>, nextId: nat)
  {
    ghost predicate Valid() {
      && NoDuplicates(order)
      && (forall id :: id in order <==> id in records)
      && (forall id :: id in records ==> records[id].handle.sessionId == id)
    }

    function Snapshot(): (rs: seq<Record>)
      requires forall id <- order :: id in records
      ensures |rs| == |order| && forall i :: 0 <= i < |rs| ==> rs[i] == records[order[i]]
    {
      seq(|order|, i requires 0 <= i < |order| => records[order[i]])
    }
  }

  // Starting

  datatype Request = Request(repo: string, prNumber: int, headSha: string, trigger: string, correlationId: string)

  function IntText(n: int): string {
    if n < 0 then "-" + Decimal(-n) else Decimal(n)
  }

  function SessionStem(r: Request): string {
    var safe := Map((c: char) => if c == '/' then '-' else c, r.repo);
    var short := if r.headSha == "" then "unknown" else if |r.headSha| <= 12 then r.headSha else r.headSha[..12];
    "review-" + safe + "-" + IntText(r.prNumber) + "-" + short
  }

  function SessionId(stem: string, n: nat): string {
    stem + "-" + Decimal(n)
  }

  /** What follows the last dash. */
  function Tail(s: string): string {
    if s == "" || s[|s| - 1] == '-' then "" else Tail(s[..|s| - 1]) + [s[|s| - 1]]
  }

  lemma {:induction false} TailIs(a: string, x: string)
    requires '-' !in x
    ensures Tail(a + "-" + x) == x
  {
    var s := a + "-" + x;
    if x != "" {
      assert x[|x| - 1] in x;
      assert s[..|s| - 1] == a + "-" + x[..|x| - 1];
      TailIs(a, x[..|x| - 1]);
    }
  }

  /** The counter is the part after the last dash, so ids with different counters differ whatever precedes. */
  lemma SessionIdsDiffer(stem: string, n: nat, stem': string, n': nat)
    requires n != n'
    ensures SessionId(stem, n) != SessionId(stem', n')
  {
    TailIs(stem, Decimal(n));
    TailIs(stem', Decimal(n'));
    DecimalValue(n);
    DecimalValue(n');
  }

  function NewHandle(s: Sessions, r: Request): Handle {
    Handle(SessionId(SessionStem(r), s.nextId), r.repo, r.prNumber, r.headSha, r.trigger, r.correlationId, "")
  }

  function Put(s: Sessions, record: Record): Sessions {
    var id := record.handle.sessionId;
    s.(order := if id in s.order then s.order else s.order + [id], records := s.records[id := record])
  }

  /** `start_workflow_session`; `returned` is the handle the runner gives back, none if it raises. */
  function Start(s: Sessions, r: Request, returned: Option<Handle>): Sessions {
    var counted := s.(nextId := s.nextId + 1);
    match returned
    case None => counted
    case Some(h) => Put(counted, Record(h, Active, [], ""))
  }

  /** A runner may add its own session id to the handle, nothing else. */
  predicate Keeps(asked: Handle, returned: Option<Handle>) {
    returned.Some? ==> returned.value == asked.(providerId := returned.value.providerId)
  }

  // Closing

  /** One closing call. With a head to `spare` it cancels the sessions of superseded heads
      (`cancel_superseded_sessions`), without one it completes all of the pull request (`close_pr_sessions`). */
  datatype Closing = Closing(repo: string, prNumber: int, spare: Option<string>, reason: string)
  {
    function Status(): Status {
      if spare.Some? then Cancelled else Completed
    }

    predicate Matches(r: Record) {
      && r.status.Active?
      && r.handle.repo == repo && r.handle.prNumber == prNumber
      && (spare.Some? ==> r.handle.headSha != spare.value)
    }

    function Closed(r: Record): Record {
      r.(status := Status(), reason := reason)
    }
  }

  type Closings = (map<string, Record>, Option<seq<Record>>)

  /** `_close_matching` over the snapshot: the runner raises for the ids in `refuses`, which ends the call. */
  function CloseAll(records: map<string, Record>, todo: seq<Record>, matches: Record -> bool,
      closed: Record -> Record, refuses: set<string>): Closings
    decreases todo
  {
    if todo == [] then (records, Some([]))
    else if !matches(todo[0]) then CloseAll(records, todo[1..], matches, closed, refuses)
    else if todo[0].handle.sessionId in refuses then (records, None)
    else
      var updated := closed(todo[0]);
      Prepend([updated], CloseAll(records[todo[0].handle.sessionId := updated], todo[1..], matches, closed, refuses))
  }

  function Prepend(closed: seq<Record>, rest: Closings): Closings {
    (rest.0, if rest.1.Some? then Some(closed + rest.1.value) else None)
  }

  /** How far closing gets: to the first matching session the runner refuses to close. */
  function Reached(todo: seq<Record>, matches: Record -> bool, refuses: set<string>): (k: nat)
    ensures k <= |todo|
    ensures forall i :: 0 <= i < k && matches(todo[i]) ==> todo[i].handle.sessionId !in refuses
    ensures k < |todo| ==> matches(todo[k]) && todo[k].handle.sessionId in refuses
  {
    if todo == [] || (matches(todo[0]) && todo[0].handle.sessionId in refuses) then 0
    else
      var k := Reached(todo[1..], matches, refuses);
      assert forall i :: 0 < i < k + 1 ==> todo[i] == todo[1..][i - 1];
      k + 1
  }

  /** The records of `todo` are on file, each once. */
  ghost predicate Filed(records: map<string, Record>, todo: seq<Record>) {
    && (forall i :: 0 <= i < |todo| ==>
          todo[i].handle.sessionId in records && records[todo[i].handle.sessionId] == todo[i])
    && (forall i, j :: 0 <= i < j < |todo| ==> todo[i].handle.sessionId != todo[j].handle.sessionId)
  }

  ghost predicate InFirst(todo: seq<Record>, k: nat, id: string) {
    exists i :: 0 <= i < k && i < |todo| && todo[i].handle.sessionId == id
  }

  function Ended(r: Record, matches: Record -> bool, closed: Record -> Record): Record {
    if matches(r) then closed(r) else r
  }

  /** What closing does to each record: it ends exactly the matching ones that come before the first refusal. */
  lemma {:induction false} CloseAllMeaning(records: map<string, Record>, todo: seq<Record>,
      matches: Record -> bool, closed: Record -> Record, refuses: set<string>)
    requires Filed(records, todo)
    ensures var after := CloseAll(records, todo, matches, closed, refuses).0;
            var k := Reached(todo, matches, refuses);
            && after.Keys == records.Keys
            && (forall id <- records ::
                  after[id] == if InFirst(todo, k, id) then Ended(records[id], matches, closed) else records[id])
    decreases todo
  {
    if todo != [] && !(matches(todo[0]) && todo[0].handle.sessionId in refuses) {
      var rest := todo[1..];
      var k, id0 := Reached(rest, matches, refuses), todo[0].handle.sessionId;
      var next := records[id0 := Ended(todo[0], matches, closed)];
      assert !matches(todo[0]) ==> next == records;
      StillFiled(records, todo, next[id0]);
      CloseAllMeaning(next, rest, matches, closed, refuses);
      forall id <- records ensures InFirst(todo, k + 1, id) <==> id == id0 || InFirst(rest, k, id) {
        FirstShifts(todo, k, id);
      }
      assert !InFirst(rest, k, id0) by {
        assert forall i :: 0 <= i < |rest| ==> rest[i] == todo[i + 1];
      }
    }
  }

  lemma StillFiled(records: map<string, Record>, todo: seq<Record>, r: Record)
    requires todo != [] && Filed(records, todo)
    ensures Filed(records[todo[0].handle.sessionId := r], todo[1..])
  {
    assert forall i :: 0 <= i < |todo[1..]| ==> todo[1..][i] == todo[i + 1];
  }

  lemma FirstShifts(todo: seq<Record>, k: nat, id: string)
    requires todo != []
    ensures InFirst(todo, k + 1, id) <==> id == todo[0].handle.sessionId || InFirst(todo[1..], k, id)
  {
    if InFirst(todo, k + 1, id) {
      var i :| 0 <= i < k + 1 && i < |todo| && todo[i].handle.sessionId == id;
      assert i > 0 ==> todo[1..][i - 1] == todo[i];
    }
    if InFirst(todo[1..], k, id) {
      var i :| 0 <= i < k && i < |todo[1..]| && todo[1..][i].handle.sessionId == id;
      assert todo[i + 1].handle.sessionId == id;
    }
    if id == todo[0].handle.sessionId {
      assert InFirst(todo, k + 1, id);
    }
  }

  /** The result lists what was closed, in order, unless the runner refuses. */
  lemma {:induction false} CloseAllResult(records: map<string, Record>, todo: seq<Record>,
      matches: Record -> bool, closed: Record -> Record, refuses: set<string>)
    ensures CloseAll(records, todo, matches, closed, refuses).1
         == (if Reached(todo, matches, refuses) == |todo| then Some(Map(closed, Filter(matches, todo))) else None)
    decreases todo
  {
    if todo != [] && !(matches(todo[0]) && todo[0].handle.sessionId in refuses) {
      var next := records[todo[0].handle.sessionId := closed(todo[0])];
      CloseAllResult(if matches(todo[0]) then next else records, todo[1..], matches, closed, refuses);
      var rest := Filter(matches, todo[1..]);
      assert ([todo[0]] + rest)[1..] == rest;
    }
  }

  function Close(s: Sessions, c: Closing, refuses: set<string>): (Sessions, Option<seq<Record>>)
    requires forall id <- s.order :: id in s.records
  {
    var (records, closed) := CloseAll(s.records, s.Snapshot(), c.Matches, c.Closed, refuses);
    (s.(records := records), closed)
  }

  /** The position at which the runner refuses, or the number of sessions. */
  function Stop(s: Sessions, c: Closing, refuses: set<string>): (k: nat)
    requires forall id <- s.order :: id in s.records
    ensures k <= |s.order|
    ensures k < |s.order| ==> c.Matches(s.records[s.order[k]])
  {
    Reached(s.Snapshot(), c.Matches, refuses)
  }

  /** What closing does to the records, session by session. */
  lemma CloseRecords(s: Sessions, c: Closing, refuses: set<string>)
    requires s.Valid()
    ensures var s', k := Close(s, c, refuses).0, Stop(s, c, refuses);
            && s'.Valid() && s'.order == s.order && s'.nextId == s.nextId
            && (forall i :: 0 <= i < |s.order| ==>
                  var r := s.records[s.order[i]];
                  s'.records[s.order[i]] == if i < k && c.Matches(r) then c.Closed(r) else r)
  {
    hide CloseAll, Reached, Closing.Matches, InFirst;
    var todo, k := s.Snapshot(), Stop(s, c, refuses);
    SnapshotIsFiled(s);
    CloseAllMeaning(s.records, todo, c.Matches, c.Closed, refuses);
    forall i | 0 <= i < |s.order| ensures InFirst(todo, k, s.order[i]) <==> i < k {
      PositionIs(s, i, k);
    }
  }

  /** Closing touches exactly the active matching sessions before a refusal; without one the result lists what
      was closed, in the order the sessions were started. */
  lemma CloseMeaning(s: Sessions, c: Closing, refuses: set<string>)
    requires s.Valid()
    ensures var (s', closed) := Close(s, c, refuses);
            var k := Stop(s, c, refuses);
            && s'.Valid() && s'.order == s.order && s'.nextId == s.nextId
            && (forall i :: 0 <= i < |s.order| ==>
                  var r := s.records[s.order[i]];
                  s'.records[s.order[i]] == if i < k && c.Matches(r) then c.Closed(r) else r)
            && closed == (if k == |s.order| then Some(Map(c.Closed, Filter(c.Matches, s.Snapshot()))) else None)
            && (closed.Some? <==> forall id :: id in s.records && c.Matches(s.records[id]) ==> id !in refuses)
  {
    hide CloseAll, Reached, Closing.Matches, Closing.Closed, Filter, Map;
    CloseRecords(s, c, refuses);
    CloseAllResult(s.records, s.Snapshot(), c.Matches, c.Closed, refuses);
    NoRefusalIff(s, c, refuses);
  }

  /** An active session of the repository and pull request, on another head than the spared one. */
  ghost predicate Concerns(repo: string, prNumber: int, spare: Option<string>, r: Record) {
    && r.status == Active && r.handle.repo == repo && r.handle.prNumber == prNumber
    && (spare.None? || r.handle.headSha != spare.value)
  }

  /** What closing makes of a session it ends. */
  ghost predicate EndsAs(r: Record, r': Record, spare: Option<string>, reason: string) {
    && r'.handle == r.handle && r'.turns == r.turns && r'.reason == reason
    && r'.status == (if spare.Some? then Cancelled else Completed)
  }

  /** Closing in fields: what it does not concern stays as it is; unless the runner refuses one of the sessions it
      concerns, each of those ends with the reason, cancelled if a head is spared and completed otherwise, and the
      result lists exactly them. */
  ghost predicate ClosesOnly(s: Sessions, s': Sessions, closed: Option<seq<Record>>, repo: string, prNumber: int,
      spare: Option<string>, reason: string, refuses: set<string>) {
    && s'.order == s.order && s'.nextId == s.nextId && s'.records.Keys == s.records.Keys
    && (closed.Some? <==> forall id <- s.records :: Concerns(repo, prNumber, spare, s.records[id]) ==> id !in refuses)
    && (forall id <- s.records :: OneClosed(s.records[id], s'.records[id], closed, repo, prNumber, spare, reason))
    && (closed.Some? ==> forall r' <- closed.value ::
          exists id <- s.records :: Concerns(repo, prNumber, spare, s.records[id]) && r' == s'.records[id])
  }

  ghost predicate OneClosed(r: Record, r': Record, closed: Option<seq<Record>>, repo: string, prNumber: int,
      spare: Option<string>, reason: string) {
    && (!Concerns(repo, prNumber, spare, r) ==> r' == r)
    && (Concerns(repo, prNumber, spare, r) ==> r' == r || EndsAs(r, r', spare, reason))
    && (Concerns(repo, prNumber, spare, r) && closed.Some? ==> EndsAs(r, r', spare, reason) && r' in closed.value)
  }

  lemma MatchesIff(c: Closing, r: Record)
    ensures c.Matches(r) <==> Concerns(c.repo, c.prNumber, c.spare, r)
    ensures EndsAs(r, c.Closed(r), c.spare, c.reason)
  {
  }

  lemma ClosingInFields(s: Sessions, c: Closing, refuses: set<string>)
    requires s.Valid()
    ensures ClosesOnly(s, Close(s, c, refuses).0, Close(s, c, refuses).1, c.repo, c.prNumber, c.spare, c.reason, refuses)
  {
    hide Close, Concerns, Closing.Matches, Closing.Closed, EndsAs, OneClosed, Filter;
    CloseMeaning(s, c, refuses);
    var (s', closed) := Close(s, c, refuses);
    forall id: string ensures id in s.records <==> id in s'.records {
      assert id in s.order <==> id in s'.order;
    }
    forall id <- s.records ensures OneClosed(s.records[id], s'.records[id], closed, c.repo, c.prNumber, c.spare, c.reason) {
      OneIsClosed(s, c, refuses, id);
    }
    forall id <- s.records ensures c.Matches(s.records[id]) <==> Concerns(c.repo, c.prNumber, c.spare, s.records[id]) {
      MatchesIff(c, s.records[id]);
    }
    if closed.Some? {
      forall r' <- closed.value
        ensures exists id <- s.records :: Concerns(c.repo, c.prNumber, c.spare, s.records[id]) && r' == s'.records[id]
      {
        var id := ListedIsClosed(s, c, refuses, r');
      }
    }
  }

  lemma OneIsClosed(s: Sessions, c: Closing, refuses: set<string>, id: string)
    requires s.Valid() && id in s.records && id in Close(s, c, refuses).0.records
    ensures var (s', closed) := Close(s, c, refuses);
            OneClosed(s.records[id], s'.records[id], closed, c.repo, c.prNumber, c.spare, c.reason)
  {
    hide Close, Concerns, Closing.Matches, Closing.Closed, EndsAs, Stop;
    CloseMeaning(s, c, refuses);
    MatchesIff(c, s.records[id]);
    var closed := Close(s, c, refuses).1;
    assert id in s.order;
    var i :| 0 <= i < |s.order| && s.order[i] == id;
    if closed.Some? && c.Matches(s.records[id]) {
      assert s.Snapshot()[i] in Filter(c.Matches, s.Snapshot());
      MappedIn(c.Closed, Filter(c.Matches, s.Snapshot()), s.Snapshot()[i]);
      WentThrough(s, c, refuses);
    }
  }

  lemma WentThrough(s: Sessions, c: Closing, refuses: set<string>)
    requires s.Valid()
    ensures Close(s, c, refuses).1.Some? ==> Stop(s, c, refuses) == |s.order|
  {
    hide Close, Closing.Matches, Closing.Closed;
    CloseMeaning(s, c, refuses);
  }

  lemma ListedIsClosed(s: Sessions, c: Closing, refuses: set<string>, r': Record) returns (id: string)
    requires s.Valid() && Close(s, c, refuses).1.Some? && r' in Close(s, c, refuses).1.value
    ensures id in s.records && Concerns(c.repo, c.prNumber, c.spare, s.records[id])
    ensures id in Close(s, c, refuses).0.records && r' == Close(s, c, refuses).0.records[id]
  {
    hide Close, Concerns, Closing.Matches, Closing.Closed, EndsAs, Stop;
    CloseMeaning(s, c, refuses);
    WentThrough(s, c, refuses);
    var kept, listed := Filter(c.Matches, s.Snapshot()), Close(s, c, refuses).1.value;
    var k :| 0 <= k < |listed| && listed[k] == r';
    assert kept[k] in kept && r' == c.Closed(kept[k]);
    MatchesIff(c, kept[k]);
    var i :| 0 <= i < |s.order| && s.Snapshot()[i] == kept[k];
    assert s.order[i] in s.order;
    id := s.order[i];
  }

  lemma MappedIn<T, U>(f: T -> U, xs: seq<T>, x: T)
    requires x in xs
    ensures f(x) in Map(f, xs)
  {
    var i :| 0 <= i < |xs| && xs[i] == x;
    assert Map(f, xs)[i] == f(x);
  }

  lemma SnapshotIsFiled(s: Sessions)
    requires s.Valid()
    ensures Filed(s.records, s.Snapshot())
    ensures forall i :: 0 <= i < |s.order| ==> s.order[i] in s.records && s.Snapshot()[i].handle.sessionId == s.order[i]
  {
    forall i | 0 <= i < |s.order| ensures s.order[i] in s.records && s.Snapshot()[i].handle.sessionId == s.order[i] {
      assert s.order[i] in s.order;
    }
  }

  lemma PositionIs(s: Sessions, i: nat, k: nat)
    requires s.Valid() && i < |s.order|
    ensures InFirst(s.Snapshot(), k, s.order[i]) <==> i < k
  {
    SnapshotIsFiled(s);
    if InFirst(s.Snapshot(), k, s.order[i]) {
      var j :| 0 <= j < k && j < |s.order| && s.Snapshot()[j].handle.sessionId == s.order[i];
      assert s.order[j] == s.order[i];
    }
    assert i < k ==> s.Snapshot()[i].handle.sessionId == s.order[i];
  }

  lemma NoRefusalIff(s: Sessions, c: Closing, refuses: set<string>)
    requires s.Valid()
    ensures Stop(s, c, refuses) == |s.order|
            <==> forall id :: id in s.records && c.Matches(s.records[id]) ==> id !in refuses
  {
    SnapshotIsFiled(s);
    var k := Stop(s, c, refuses);
    if k < |s.order| {
      assert s.order[k] in s.records;
    } else {
      forall id | id in s.records && c.Matches(s.records[id]) ensures id !in refuses {
        assert id in s.order;
        var i :| 0 <= i < |s.order| && s.order[i] == id;
        assert c.Matches(s.Snapshot()[i]);
      }
    }
  }

  // Running a stage

  datatype RunOutcome = NotFound | Raised | Returned(result: RunResult)

  function TurnOf(i: RunInput, r: RunResult): Turn {
    Turn(i.stage, i.correlationId, r.status, i.allowedTools, r.error)
  }

  /** `run_stage` when nothing else happens while the runner works; a runner that raises returns nothing. */
  function RunAlone(s: Sessions, id: string, input: RunInput, answer: Option<RunResult>): (Sessions, RunOutcome)
    requires s.Valid()
  {
    if id !in s.records || !s.records[id].status.Active? then (s, NotFound) else
      match answer
      case None => (s, Raised)
      case Some(r) =>
        var record := s.records[id];
        (s.(records := s.records[id := record.(turns := record.turns + [TurnOf(input, r)])]), Returned(r))
  }

  /** The handle a runner gives back that only adds its own id, if it does not raise. */
  function Asked(s: Sessions, r: Request, provider: Option<string>): (h: Option<Handle>)
    ensures Keeps(NewHandle(s, r), h)
  {
    if provider.Some? then Some(NewHandle(s, r).(providerId := provider.value)) else None
  }

  /** One operation of the manager. */
  datatype Deed =
    | Starts(request: Request, provider: Option<string>)
    | Runs(id: string, input: RunInput, answer: Option<RunResult>)
    | Closes(closing: Closing, refuses: set<string>)

  function Do(s: Sessions, d: Deed): (s': Sessions)
    requires s.Valid()
    ensures s'.Valid()
  {
    match d
    case Starts(r, provider) => Start(s, r, Asked(s, r, provider))
    case Runs(id, input, answer) => RunAlone(s, id, input, answer).0
    case Closes(c, refuses) =>
      CloseMeaning(s, c, refuses);
      Close(s, c, refuses).0
  }

  function DoAll(s: Sessions, ds: seq<Deed>): (s': Sessions)
    requires s.Valid()
    ensures s'.Valid()
    decreases ds
  {
    if ds == [] then s else DoAll(Do(s, ds[0]), ds[1..])
  }

  /** `run_stage` with other operations, `during`, while the runner works. The record written back is the one that
      was read before. */
  function StageRun(s: Sessions, id: string, input: RunInput, during: seq<Deed>,
      answer: Option<RunResult>): (Sessions, RunOutcome)
    requires s.Valid()
  {
    if id !in s.records || !s.records[id].status.Active? then (s, NotFound) else
      var record := s.records[id];
      var s1 := DoAll(s, during);
      match answer
      case None => (s1, Raised)
      case Some(r) => (Put(s1, record.(turns := record.turns + [TurnOf(input, r)])), Returned(r))
  }

  // The manager object

  class WorkflowAgentSessionManager {
    var order: seq<string>
    var records: map<string, Record>
    var nextId: nat

    function View(): Sessions
      reads this
    {
      Sessions(order, records, nextId)
    }

    constructor ()
      ensures View() == Sessions([], map[], 1) && View().Valid()
    {
      order, records, nextId := [], map[], 1;
    }

    method StartWorkflowSession(r: Request, returned: Option<Handle>) returns (record: Option<Record>)
      modifies this
      ensures View() == Start(old(View()), r, returned)
      ensures record == if returned.Some? then Some(Record(returned.value, Active, [], "")) else None
    {
      nextId := nextId + 1;
      if returned.None? {
        return None;
      }
      var id := returned.value.sessionId;
      record := Some(Record(returned.value, Active, [], ""));
      if id !in order {
        order := order + [id];
      }
      records := records[id := record.value];
    }

    method RunStage(id: string, input: RunInput, during: seq<Deed>, answer: Option<RunResult>)
      returns (outcome: RunOutcome)
      requires View().Valid()
      modifies this
      ensures (View(), outcome) == StageRun(old(View()), id, input, during, answer)
      decreases if during == [] then 0 else 2
    {
      if id !in records || !records[id].status.Active? {
        return NotFound;
      }
      var record := records[id];
      for n := 0 to |during|
        invariant View().Valid() && DoAll(old(View()), during) == DoAll(View(), during[n..])
      {
        assert during[n..][1..] == during[n + 1..];
        Perform(during[n]);
      }
      if answer.None? {
        return Raised;
      }
      var turned := record.(turns := record.turns + [TurnOf(input, answer.value)]);
      order := if id in order then order else order + [id];
      records := records[id := turned];
      return Returned(answer.value);
    }

    /** Any operation, through its own method. */
    method Perform(d: Deed)
      requires View().Valid()
      modifies this
      ensures View() == Do(old(View()), d)
      decreases 1
    {
      match d
      case Starts(r, provider) =>
        var record := StartWorkflowSession(r, Asked(View(), r, provider));
      case Runs(id, input, answer) =>
        UndisturbedRun(View(), id, input, answer);
        var outcome := RunStage(id, input, [], answer);
      case Closes(c, refuses) =>
        var closed := CloseMatching(c, refuses);
    }

    method CancelSupersededSessions(repo: string, prNumber: int, currentHead: string, reason: string,
        refuses: set<string>)
      returns (closed: Option<seq<Record>>)
      requires View().Valid()
      modifies this
      ensures (View(), closed) == Close(old(View()), Closing(repo, prNumber, Some(currentHead), reason), refuses)
      ensures ClosesOnly(old(View()), View(), closed, repo, prNumber, Some(currentHead), reason, refuses)
    {
      ClosingInFields(View(), Closing(repo, prNumber, Some(currentHead), reason), refuses);
      closed := CloseMatching(Closing(repo, prNumber, Some(currentHead), reason), refuses);
    }

    method ClosePRSessions(repo: string, prNumber: int, reason: string, refuses: set<string>)
      returns (closed: Option<seq<Record>>)
      requires View().Valid()
      modifies this
      ensures (View(), closed) == Close(old(View()), Closing(repo, prNumber, None, reason), refuses)
      ensures ClosesOnly(old(View()), View(), closed, repo, prNumber, None, reason, refuses)
    {
      ClosingInFields(View(), Closing(repo, prNumber, None, reason), refuses);
      closed := CloseMatching(Closing(repo, prNumber, None, reason), refuses);
    }

    method CloseMatching(c: Closing, refuses: set<string>) returns (closed: Option<seq<Record>>)
      requires View().Valid()
      modifies this
      ensures (View(), closed) == Close(old(View()), c, refuses)
    {
      hide Closing.Matches, Closing.Closed, NoDuplicates;
      var todo := View().Snapshot();
      var done: seq<Record> := [];
      assert todo[0..] == todo;
      StartsPrepended(CloseAll(records, todo, c.Matches, c.Closed, refuses));
      for n := 0 to |todo|
        invariant order == old(order) && nextId == old(nextId)
        invariant CloseAll(old(records), todo, c.Matches, c.Closed, refuses)
               == Prepend(done, CloseAll(records, todo[n..], c.Matches, c.Closed, refuses))
      {
        assert todo[n..][1..] == todo[n + 1..];
        if c.Matches(todo[n]) {
          if todo[n].handle.sessionId in refuses {
            return None;
          }
          var updated := c.Closed(todo[n]);
          var after := records[todo[n].handle.sessionId := updated];
          PrependTwice(done, updated, CloseAll(after, todo[n + 1..], c.Matches, c.Closed, refuses));
          records, done := after, done + [updated];
        }
      }
      assert todo[|todo|..] == [] && done + [] == done;
      return Some(done);
    }
  }

  lemma UndisturbedRun(s: Sessions, id: string, input: RunInput, answer: Option<RunResult>)
    requires s.Valid()
    ensures StageRun(s, id, input, [], answer) == RunAlone(s, id, input, answer)
  {
  }

  lemma StartsPrepended(rest: Closings)
    ensures Prepend([], rest) == rest
  {
    if rest.1.Some? {
      assert [] + rest.1.value == rest.1.value;
    }
  }

  lemma PrependTwice(done: seq<Record>, r: Record, rest: Closings)
    ensures Prepend(done, Prepend([r], rest)) == Prepend(done + [r], rest)
  {
    if rest.1.Some? {
      assert done + ([r] + rest.1.value) == done + [r] + rest.1.value;
    }
  }
}
