/** Verdicts at the store. A pull request exists there from the first PR event that names a head; what arrived for it
    earlier is dropped, so before that event the order of arrival does matter. */
module StoreVerdict {
  import opened Basics
  import opened Events
  import opened Aggregate
  import opened AggregateLog
  import opened AggregateOrder
  import opened AggregateStore
  import opened CurrentVerdict
  import opened Feedback

  /** The entries from the first one that names a head. */
  function FromFirstHead(entries: seq<Entry>): (r: seq<Entry>)
    ensures |r| <= |entries| && r == entries[|entries| - |r|..]
    ensures r != [] ==> NamedHead(r[0]).Some?
    ensures forall e <- entries[..|entries| - |r|] :: NamedHead(e).None?
  {
    if entries == [] then []
    else if NamedHead(entries[0]).Some? then entries
    else
      var r := FromFirstHead(entries[1..]);
      assert entries[..|entries| - |r|] == [entries[0]] + entries[1..][..|entries| - 1 - |r|];
      r
  }

  function BeforeFirstHead(entries: seq<Entry>): seq<Entry> {
    entries[..|entries| - |FromFirstHead(entries)|]
  }

  /** What the store holds for a pull request, in terms of the entries from its first head on. */
  lemma StoredFromFirstHead(log: seq<StoreEvent>, k: PRKey)
    ensures var es := FromFirstHead(EntriesFor(log, k));
            && (k in StoreRun(log) <==> es != [])
            && (es != [] ==> && FromPREvent(es[0].pr).Success?
                             && StoreRun(log)[k] == Run(FromPREvent(es[0].pr).value, es[1..]))
  {
    var entries := EntriesFor(log, k);
    var es := FromFirstHead(entries);
    var n := |entries| - |es|;
    StoreIsPerPR(log, k);
    hide StoreRun, EntriesFor, FromFirstHead;
    if es == [] {
      assert entries[..n] == entries;
      NothingBeforeFirstHead(entries);
    } else {
      assert entries[n] == es[0] && es[1..] == entries[n + 1..];
      assert forall j :: 0 <= j < n ==> entries[j] in entries[..n];
      CreatedByFirstHead(entries, n);
    }
  }

  lemma {:induction false} EventsConcat(a: seq<Entry>, b: seq<Entry>)
    ensures HeadEvents(a + b) == HeadEvents(a) + HeadEvents(b)
    ensures forall sha: string :: CIEventsFor(a + b, sha) == CIEventsFor(a, sha) + CIEventsFor(b, sha)
  {
    if b == [] {
      assert a + b == a;
    } else {
      var rest, last := b[..|b| - 1], b[|b| - 1];
      assert (a + b)[..|a + b| - 1] == a + rest && (a + b)[|a + b| - 1] == last;
      EventsConcat(a, rest);
    }
  }

  /** The first entry is the first PR event and no CI event. */
  lemma FirstHeadEvent(es: seq<Entry>)
    requires es != [] && NamedHead(es[0]).Some?
    ensures HeadEvents(es) == [es[0].pr] + HeadEvents(es[1..])
    ensures forall sha: string :: CIEventsFor(es, sha) == CIEventsFor(es[1..], sha)
  {
    assert es == [es[0]] + es[1..];
    EventsConcat([es[0]], es[1..]);
    assert [es[0]][..0] == [];
    assert HeadEvents([es[0]]) == [es[0].pr];
    assert forall sha: string :: CIEventsFor([es[0]], sha) == [];
  }

  /** Two logs of the whole store in which a pull request has, from its first named head on, the same PR events in
      order and the same CI events per commit, whatever else arrived and however it interleaved: it is stored by both
      or neither, with the same aggregate up to flags and the same verdict on every snapshot. */
  lemma StoreOrderKeepsVerdict(log: seq<StoreEvent>, log': seq<StoreEvent>, k: PRKey, snapshot: seq<Check>)
    requires var es, es' := FromFirstHead(EntriesFor(log, k)), FromFirstHead(EntriesFor(log', k));
             HeadEvents(es) == HeadEvents(es') && forall sha: string :: CIEventsFor(es, sha) == CIEventsFor(es', sha)
    ensures k in StoreRun(log) <==> k in StoreRun(log')
    ensures k in StoreRun(log) ==>
              && SameUpToFlags(StoreRun(log)[k], StoreRun(log')[k])
              && VerdictOf(StoreRun(log)[k], snapshot) == VerdictOf(StoreRun(log')[k], snapshot)
  {
    var es, es' := FromFirstHead(EntriesFor(log, k)), FromFirstHead(EntriesFor(log', k));
    StoredFromFirstHead(log, k);
    StoredFromFirstHead(log', k);
    hide StoreRun, EntriesFor, FromFirstHead, SameUpToFlags, VerdictOf, Run, FromPREvent;
    if es != [] {
      FirstHeadEvent(es);
    }
    if es' != [] {
      FirstHeadEvent(es');
    }
    if es == [] || es' == [] {
      NoEvents();
    } else {
      SameTails(es, es');
      ArrivalOrderDoesNotMatter(es[0].pr, es[1..], es'[1..]);
      ArrivalOrderKeepsVerdict(es[0].pr, es[1..], es'[1..], snapshot);
    }
  }

  lemma NoEvents()
    ensures HeadEvents([]) == []
  {
  }

  lemma SameTails(es: seq<Entry>, es': seq<Entry>)
    requires es != [] && es' != [] && NamedHead(es[0]).Some? && NamedHead(es'[0]).Some?
    requires HeadEvents(es) == HeadEvents(es')
    requires forall sha: string :: CIEventsFor(es, sha) == CIEventsFor(es', sha)
    ensures es[0].pr == es'[0].pr && HeadEvents(es[1..]) == HeadEvents(es'[1..])
    ensures forall sha: string :: CIEventsFor(es[1..], sha) == CIEventsFor(es'[1..], sha)
  {
    FirstHeadEvent(es);
    FirstHeadEvent(es');
    assert HeadEvents(es)[0] == es[0].pr && HeadEvents(es')[0] == es'[0].pr;
    assert HeadEvents(es)[1..] == HeadEvents(es[1..]) && HeadEvents(es')[1..] == HeadEvents(es'[1..]);
  }

  /** A stored pull request holds all CI events that arrived for it exactly if none arrived before its first head. */
  lemma NothingIsDroppedIff(log: seq<StoreEvent>, k: PRKey)
    requires k in StoreRun(log)
    ensures (forall sha: string ::
               Map(Unflagged, StoreRun(log)[k].Runs(sha)) == Map(RecordOf, CIEventsFor(EntriesFor(log, k), sha)))
            <==> (forall e <- BeforeFirstHead(EntriesFor(log, k)) :: !e.CIDone?)
  {
    var entries := EntriesFor(log, k);
    var early, es := BeforeFirstHead(entries), FromFirstHead(entries);
    StoredFromFirstHead(log, k);
    var a := StoreRun(log)[k];
    assert entries == early + es;
    hide StoreRun, EntriesFor, FromFirstHead, BeforeFirstHead, Run, FromPREvent, Aggregate.State.Runs;
    EventsConcat(early, es);
    FirstHeadEvent(es);
    forall sha: string ensures Map(Unflagged, a.Runs(sha)) == Map(RecordOf, CIEventsFor(es, sha)) {
      RunsAreFilteredLog(es[0].pr, es[1..], sha);
    }
    if forall e <- early :: !e.CIDone? {
      forall sha: string ensures CIEventsFor(entries, sha) == CIEventsFor(es, sha) {
        NoCI(early, sha);
        assert [] + CIEventsFor(es, sha) == CIEventsFor(es, sha);
      }
    } else {
      var e :| e in early && e.CIDone?;
      var sha := e.ci.commitSha;
      SomeCI(early, e);
      assert |Map(RecordOf, CIEventsFor(entries, sha))| > |Map(RecordOf, CIEventsFor(es, sha))|;
    }
  }

  lemma {:induction false} NoCI(entries: seq<Entry>, sha: string)
    requires forall e <- entries :: !e.CIDone?
    ensures CIEventsFor(entries, sha) == []
  {
    if entries != [] {
      NoCI(entries[..|entries| - 1], sha);
    }
  }

  lemma {:induction false} SomeCI(entries: seq<Entry>, e: Entry)
    requires e in entries && e.CIDone?
    ensures CIEventsFor(entries, e.ci.commitSha) != []
  {
    var rest, last := entries[..|entries| - 1], entries[|entries| - 1];
    assert entries == rest + [last];
    if e != last {
      SomeCI(rest, e);
    }
  }

  /** For one: a CI event of the head that arrives before the PR event leaves no trace; after it, it is observed. */
  lemma EarlyCIIsDropped(pr: PREvent, ci: CICompleted)
    requires HeadShaFor(pr) == Success(ci.commitSha)
    requires ci.repoFullName == pr.repoFullName && ci.prNumber == Some(pr.prNumber)
    ensures var k := (pr.repoFullName, pr.prNumber);
            var early, late := StoreRun([CIArrived(ci), PRArrived(pr)]), StoreRun([PRArrived(pr), CIArrived(ci)]);
            && k in early && VerdictOf(early[k], []).observations == []
            && k in late && VerdictOf(late[k], []).observations == [FromRecord(RecordOf(ci))]
  {
    var k := (pr.repoFullName, pr.prNumber);
    EntriesOfTwo(CIArrived(ci), PRArrived(pr), k);
    EntriesOfTwo(PRArrived(pr), CIArrived(ci), k);
    StoredFromFirstHead([CIArrived(ci), PRArrived(pr)], k);
    StoredFromFirstHead([PRArrived(pr), CIArrived(ci)], k);
    FirstHeadOfTwo(pr, ci);
    hide *;
    assert [PRHead(pr)][1..] == [] && [PRHead(pr), CIDone(ci)][1..] == [CIDone(ci)];
    ObservedAlone(pr, [], ci);
    ObservedAlone(pr, [CIDone(ci)], ci);
  }

  lemma FirstHeadOfTwo(pr: PREvent, ci: CICompleted)
    requires HeadShaFor(pr).Success?
    ensures FromFirstHead([CIDone(ci), PRHead(pr)]) == [PRHead(pr)]
    ensures FromFirstHead([PRHead(pr), CIDone(ci)]) == [PRHead(pr), CIDone(ci)]
  {
    hide HeadShaFor;
    assert [CIDone(ci), PRHead(pr)][1..] == [PRHead(pr)];
  }

  lemma EntriesOfTwo(a: StoreEvent, b: StoreEvent, k: PRKey)
    requires a.KeyOf() == Some(k) && b.KeyOf() == Some(k)
    ensures EntriesFor([a, b], k) == [a.AsEntry(), b.AsEntry()]
  {
    assert [a, b][..1] == [a] && [a][..0] == [];
    assert EntriesFor([a], k) == [a.AsEntry()];
  }

  lemma ObservedAlone(pr: PREvent, log: seq<Entry>, ci: CICompleted)
    requires HeadShaFor(pr) == Success(ci.commitSha) && (log == [] || log == [CIDone(ci)])
    ensures FromPREvent(pr).Success?
    ensures VerdictOf(Run(FromPREvent(pr).value, log), []).observations
         == if log == [] then [] else [FromRecord(RecordOf(ci))]
  {
    var head := ci.commitSha;
    StartsAt(pr, head);
    hide *;
    EventsOfOne(log, ci);
    ObservationsAreFilteredLog(pr, log, []);
    Observed(log, ci);
  }

  lemma StartsAt(pr: PREvent, head: string)
    requires HeadShaFor(pr) == Success(head)
    ensures FromPREvent(pr).Success? && LastHead(FromPREvent(pr).value.currentHead, []) == head
  {
    hide HeadShaFor;
  }

  lemma Observed(log: seq<Entry>, ci: CICompleted)
    requires CIEventsFor(log, ci.commitSha) == if log == [] then [] else [ci]
    ensures Merged(Map(FromRecord, Map(RecordOf, CIEventsFor(log, ci.commitSha))),
                   Map(FromCheck, ChecksOf(ci.commitSha, [])))
         == if log == [] then [] else [FromRecord(RecordOf(ci))]
  {
    hide Merged, FromRecord, RecordOf, CIEventsFor;
    assert ChecksOf(ci.commitSha, []) == [] && Map(FromCheck, []) == [];
    MergedWithNothing(Map(FromRecord, Map(RecordOf, CIEventsFor(log, ci.commitSha))));
    assert [ci][1..] == [] && [RecordOf(ci)][1..] == [];
  }

  lemma EventsOfOne(log: seq<Entry>, ci: CICompleted)
    requires log == [] || log == [CIDone(ci)]
    ensures HeadEvents(log) == [] && CIEventsFor(log, ci.commitSha) == if log == [] then [] else [ci]
  {
    assert log != [] ==> log[..0] == [];
  }

  lemma MergedWithNothing(records: seq<Observation>)
    ensures Merged(records, []) == records
  {
  }
}
