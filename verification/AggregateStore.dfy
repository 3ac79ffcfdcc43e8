/** `InMemoryPRAggregateStore`: one aggregate per pull request, updated in place. */
module AggregateStore {
  import opened Basics
  import opened Events
  import opened Aggregate
  import opened AggregateLog

  type PRKey = (string, int)

  /** An event of the whole store; a CI event without a linked PR belongs to none. */
  datatype StoreEvent =
    | PRArrived(pr: PREvent)
    | CIArrived(ci: CICompleted)
    | ReviewRequested(repo: string, number: int, trigger: ReviewRunTrigger, requestedBy: string)
  {
    function KeyOf(): Option<PRKey> {
      match this
      case PRArrived(e) => Some((e.repoFullName, e.prNumber))
      case CIArrived(e) => if e.prNumber.None? then None else Some((e.repoFullName, e.prNumber.value))
      case ReviewRequested(repo, number, _, _) => Some((repo, number))
    }

    function AsEntry(): Entry {
      match this
      case PRArrived(e) => PRHead(e)
      case CIArrived(e) => CIDone(e)
      case ReviewRequested(_, _, t, who) => ReviewAsked(t, who)
    }
  }

  /** One event for one PR: only a PR event that names a head creates the aggregate. */
  function StepOne(a: Option<State>, entry: Entry): Option<State> {
    match a
    case Some(s) => Some(Step(s, entry))
    case None =>
      if entry.PRHead? then
        match FromPREvent(entry.pr)
        case Success(s) => Some(s)
        case Failure(_) => None
      else None
  }

  ghost predicate StoredUnder(a: State, k: PRKey) {
    a.Valid() && (a.repoFullName, a.prNumber) == k
  }

  /** The aggregate a PR event builds or moves on to. */
  function OnPREvent(existing: Option<State>, e: PREvent): Result<State, AggregateError> {
    if existing.None? then FromPREvent(e) else Aggregate.ApplyPREvent(existing.value, e)
  }

  lemma OnPREventIsStep(existing: Option<State>, e: PREvent)
    requires existing.Some? ==> StoredUnder(existing.value, (e.repoFullName, e.prNumber))
    ensures var r := OnPREvent(existing, e);
            && (r.Failure? <==> HeadShaFor(e).Failure?)
            && (r.Failure? ==> StepOne(existing, PRHead(e)) == existing)
            && (r.Success? ==> StepOne(existing, PRHead(e)) == Some(r.value))
            && (r.Success? ==> StoredUnder(r.value, (e.repoFullName, e.prNumber)))
  {
    if existing.Some? && HeadShaFor(e).Success? {
      MoveHeadKeepsValid(existing.value, HeadShaFor(e).value, e.title, e.meta.eventId);
    }
  }

  class InMemoryPRAggregateStore {
    var aggregates: map<PRKey, State>

    /** Every aggregate is valid and stored under its own repository and number. */
    ghost predicate Valid()
      reads this
    {
      forall k <- aggregates :: StoredUnder(aggregates[k], k)
    }

    function Lookup(k: PRKey): Option<State>
      reads this
    {
      if k in aggregates then Some(aggregates[k]) else None
    }

    constructor ()
      ensures Valid() && aggregates == map[]
    {
      aggregates := map[];
    }

    method Get(repo: string, number: int) returns (a: Option<State>)
      ensures a == Lookup((repo, number))
    {
      a := if (repo, number) in aggregates then Some(aggregates[(repo, number)]) else None;
    }

    method Save(a: State)
      modifies this
      ensures aggregates == old(aggregates)[(a.repoFullName, a.prNumber) := a]
    {
      aggregates := aggregates[(a.repoFullName, a.prNumber) := a];
    }

    /** Raises, and changes nothing, exactly when the head is blank. */
    method ApplyPREvent(e: PREvent) returns (r: Result<State, AggregateError>)
      requires Valid()
      modifies this
      ensures Valid()
      ensures r.Failure? <==> HeadShaFor(e).Failure?
      ensures r == OnPREvent(old(Lookup((e.repoFullName, e.prNumber))), e)
      ensures aggregates == if r.Failure? then old(aggregates)
                            else old(aggregates)[(e.repoFullName, e.prNumber) := r.value]
    {
      var existing := Get(e.repoFullName, e.prNumber);
      OnPREventIsStep(existing, e);
      r := OnPREvent(existing, e);
      if r.Success? {
        Save(r.value);
      }
    }

    method RecordCICompleted(e: CICompleted) returns (r: Option<State>)
      requires Valid()
      modifies this
      ensures Valid()
      ensures e.prNumber.None? || (e.repoFullName, e.prNumber.value) !in old(aggregates) ==>
                r.None? && aggregates == old(aggregates)
      ensures e.prNumber.Some? && (e.repoFullName, e.prNumber.value) in old(aggregates) ==>
                var k := (e.repoFullName, e.prNumber.value);
                && r == Some(Step(old(aggregates)[k], CIDone(e)))
                && aggregates == old(aggregates)[k := r.value]
    {
      if e.prNumber.None? {
        return None;
      }
      var existing := Get(e.repoFullName, e.prNumber.value);
      if existing.None? {
        return None;
      }
      RecordCIKeepsValid(existing.value, e);
      var a := Aggregate.RecordCICompleted(existing.value, e);
      Save(a);
      r := Some(a);
    }

    method StartReviewRun(repo: string, number: int, trigger: ReviewRunTrigger, requestedBy: string)
      returns (r: Option<State>)
      requires Valid()
      modifies this
      ensures Valid()
      ensures (repo, number) !in old(aggregates) ==> r.None? && aggregates == old(aggregates)
      ensures (repo, number) in old(aggregates) ==>
                && r == Some(Step(old(aggregates)[(repo, number)], ReviewAsked(trigger, requestedBy)))
                && aggregates == old(aggregates)[(repo, number) := r.value]
    {
      var existing := Get(repo, number);
      if existing.None? {
        return None;
      }
      ReviewKeepsValid(existing.value, trigger, requestedBy);
      var a := Aggregate.StartReviewRun(existing.value, trigger, requestedBy);
      Save(a);
      r := Some(a);
    }

    /** One event through the method that handles it. */
    method Handle(ev: StoreEvent)
      requires Valid()
      modifies this
      ensures Valid()
      ensures aggregates == StoreStep(old(aggregates), ev)
    {
      match ev
      case PRArrived(e) =>
        OnPREventIsStep(Lookup((e.repoFullName, e.prNumber)), e);
        var r := ApplyPREvent(e);
      case CIArrived(e) =>
        var r := RecordCICompleted(e);
      case ReviewRequested(repo, number, t, who) =>
        var r := StartReviewRun(repo, number, t, who);
    }
  }

  /** What one event does to the whole dictionary: it touches its own PR's aggregate, or nothing. */
  function StoreStep(m: map<PRKey, State>, ev: StoreEvent): map<PRKey, State> {
    match ev.KeyOf()
    case None => m
    case Some(k) =>
      match StepOne(if k in m then Some(m[k]) else None, ev.AsEntry())
      case None => m
      case Some(a) => m[k := a]
  }

  function StoreRun(log: seq<StoreEvent>): map<PRKey, State> {
    if log == [] then map[] else StoreStep(StoreRun(log[..|log| - 1]), log[|log| - 1])
  }

  /** The events of one PR. */
  function EntriesFor(log: seq<StoreEvent>, k: PRKey): seq<Entry> {
    if log == [] then [] else
      var rest, last := EntriesFor(log[..|log| - 1], k), log[|log| - 1];
      if last.KeyOf() == Some(k) then rest + [last.AsEntry()] else rest
  }

  function RunOne(entries: seq<Entry>): Option<State> {
    if entries == [] then None else StepOne(RunOne(entries[..|entries| - 1]), entries[|entries| - 1])
  }

  /** PRs do not interfere: the store holds for each PR exactly what its own events build. */
  lemma {:induction false} StoreIsPerPR(log: seq<StoreEvent>, k: PRKey)
    ensures (if k in StoreRun(log) then Some(StoreRun(log)[k]) else None) == RunOne(EntriesFor(log, k))
  {
    if log != [] {
      StoreIsPerPR(log[..|log| - 1], k);
    }
  }

  /** The aggregate of a PR is created by its first event that names a head; what came before is dropped,
      what follows is folded in order. */
  lemma {:induction false} CreatedByFirstHead(entries: seq<Entry>, k: nat)
    requires k < |entries| && NamedHead(entries[k]).Some?
    requires forall j :: 0 <= j < k ==> NamedHead(entries[j]).None?
    ensures RunOne(entries) == Some(Run(FromPREvent(entries[k].pr).value, entries[k + 1..]))
  {
    var rest, last := entries[..|entries| - 1], entries[|entries| - 1];
    if k == |rest| {
      NothingBeforeFirstHead(rest);
    } else {
      CreatedByFirstHead(rest, k);
      var tail := entries[k + 1..];
      assert tail[..|tail| - 1] == rest[k + 1..];
    }
  }

  lemma {:induction false} NothingBeforeFirstHead(entries: seq<Entry>)
    requires forall e <- entries :: NamedHead(e).None?
    ensures RunOne(entries) == None
  {
    if entries != [] {
      NothingBeforeFirstHead(entries[..|entries| - 1]);
      assert NamedHead(entries[|entries| - 1]).None?;
    }
  }
}
