/** Whole lives of the session manager, with a runner that keeps the handle it is given. */
module SessionRuns {
  import opened Basics
  import opened AgentSessions
  import Text

  /** Ids in use end in a counter that has been given out. */
  ghost predicate Issued(id: string, bound: nat) {
    exists stem, n: nat :: n < bound && id == SessionId(stem, n)
  }

  ghost predicate Inv(s: Sessions) {
    s.Valid() && forall id <- s.order :: Issued(id, s.nextId)
  }

  /** Records are never dropped, handles never change, histories only grow, and a terminal session is final. */
  ghost predicate Evolves(s: Sessions, s': Sessions) {
    && s.order <= s'.order && s.nextId <= s'.nextId
    && (forall id <- s.records ::
          && id in s'.records
          && s'.records[id].handle == s.records[id].handle
          && s.records[id].turns <= s'.records[id].turns
          && (!s.records[id].status.Active? ==> s'.records[id] == s.records[id]))
  }

  lemma FreshId(s: Sessions, stem: string)
    requires Inv(s)
    ensures SessionId(stem, s.nextId) !in s.records
  {
    var id := SessionId(stem, s.nextId);
    if id in s.records {
      assert id in s.order;
      var stem', n: nat :| n < s.nextId && id == SessionId(stem', n);
      SessionIdsDiffer(stem, s.nextId, stem', n);
    }
  }

  lemma IssuedLater(id: string, bound: nat, bound': nat)
    requires Issued(id, bound) && bound <= bound'
    ensures Issued(id, bound')
  {
    var stem, n: nat :| n < bound && id == SessionId(stem, n);
    assert n < bound' && id == SessionId(stem, n);
  }

  /** Starting gives out an id that was never in use. */
  lemma StartEvolves(s: Sessions, r: Request, provider: Option<string>)
    requires Inv(s)
    ensures var s' := Start(s, r, Asked(s, r, provider));
            && Inv(s') && Evolves(s, s') && s'.nextId == s.nextId + 1
            && s'.order == s.order + (if provider.Some? then [NewHandle(s, r).sessionId] else [])
  {
    var id := NewHandle(s, r).sessionId;
    FreshId(s, SessionStem(r));
    assert id !in s.order;
    var s' := Start(s, r, Asked(s, r, provider));
    forall x <- s'.order ensures Issued(x, s'.nextId) {
      if x in s.order {
        IssuedLater(x, s.nextId, s'.nextId);
      } else {
        assert x == SessionId(SessionStem(r), s.nextId);
      }
    }
    forall x <- s.records ensures x in s'.records && s'.records[x] == s.records[x] {
      assert x != id;
    }
  }

  /** What a started session is: for the pull request, head and run it was asked for, active, without turns. */
  lemma StartedSession(s: Sessions, r: Request, provider: string)
    requires Inv(s)
    ensures var s' := Start(s, r, Asked(s, r, Some(provider)));
            exists id <- s'.records :: id !in s.records
              && (var h := s'.records[id].handle;
                  && h.sessionId == id && (h.repo, h.prNumber, h.headSha) == (r.repo, r.prNumber, r.headSha)
                  && (h.trigger, h.correlationId, h.providerId) == (r.trigger, r.correlationId, provider))
              && s'.records[id].status == Active && s'.records[id].turns == []
              && (forall x <- s.records :: x in s'.records && s'.records[x] == s.records[x])
              && s'.records.Keys == s.records.Keys + {id}
  {
    FreshId(s, SessionStem(r));
    hide SessionId, SessionStem, Inv;
    var s', id := Start(s, r, Asked(s, r, Some(provider))), NewHandle(s, r).sessionId;
    assert id in s'.records && s'.records[id].handle == NewHandle(s, r).(providerId := provider);
  }

  /** How a session id reads, for a repository of an owner: the slash becomes a dash, the head is cut at twelve. */
  lemma SessionIdReads(s: Sessions, r: Request, owner: string, name: string, number: nat)
    requires r.repo == owner + "/" + name && '/' !in owner && '/' !in name && r.prNumber == number
    ensures NewHandle(s, r).sessionId
         == "review-" + (owner + "-" + name) + "-" + Text.Decimal(number) + "-"
            + (if r.headSha == "" then "unknown" else if |r.headSha| <= 12 then r.headSha else r.headSha[..12])
            + "-" + Text.Decimal(s.nextId)
  {
    var dashed := (c: char) => if c == '/' then '-' else c;
    var safe := Map(dashed, r.repo);
    forall i | 0 <= i < |r.repo| ensures safe[i] == (owner + "-" + name)[i] {
      assert r.repo[i] == (owner + "/" + name)[i];
      assert i < |owner| ==> r.repo[i] in owner;
      assert i > |owner| ==> r.repo[i] == name[i - |owner| - 1] && r.repo[i] in name;
    }
    assert safe == owner + "-" + name;
  }

  /** The turn a returned run leaves: the stage and tools it was asked for, the status and error it came back with. */
  lemma RunLeavesTurn(s: Sessions, id: string, input: RunInput, result: RunResult)
    requires Inv(s) && id in s.records && s.records[id].status == Active
    ensures var s' := RunAlone(s, id, input, Some(result)).0;
            && s'.records.Keys == s.records.Keys
            && (forall x <- s.records :: x != id ==> s'.records[x] == s.records[x])
            && |s'.records[id].turns| == |s.records[id].turns| + 1
            && var t := s'.records[id].turns[|s.records[id].turns|];
               && (t.stage, t.correlationId, t.allowedTools) == (input.stage, input.correlationId, input.allowedTools)
               && (t.status, t.error) == (result.status, result.error)
  {
    hide Issued;
  }

  lemma CloseEvolves(s: Sessions, c: Closing, refuses: set<string>)
    requires Inv(s)
    ensures Inv(Close(s, c, refuses).0) && Evolves(s, Close(s, c, refuses).0)
  {
    CloseMeaning(s, c, refuses);
    var s' := Close(s, c, refuses).0;
    forall id <- s.records
      ensures id in s'.records && s'.records[id].handle == s.records[id].handle
      ensures s'.records[id].turns == s.records[id].turns
      ensures !s.records[id].status.Active? ==> s'.records[id] == s.records[id]
    {
      assert id in s.order;
      var i :| 0 <= i < |s.order| && s.order[i] == id;
    }
  }

  lemma EvolvesTrans(s: Sessions, s1: Sessions, s2: Sessions)
    requires Evolves(s, s1) && Evolves(s1, s2)
    ensures Evolves(s, s2)
  {
  }

  lemma EvolvesRefl(s: Sessions)
    ensures Evolves(s, s)
  {
  }

  lemma RunEvolves(s: Sessions, id: string, input: RunInput, answer: Option<RunResult>)
    requires Inv(s)
    ensures Inv(RunAlone(s, id, input, answer).0) && Evolves(s, RunAlone(s, id, input, answer).0)
  {
    hide Issued;
    assert RunAlone(s, id, input, answer).0.order == s.order;
  }

  lemma DoEvolves(s: Sessions, d: Deed)
    requires Inv(s)
    ensures Inv(Do(s, d)) && Evolves(s, Do(s, d))
  {
    hide Inv, Evolves;
    match d
    case Starts(r, provider) => StartEvolves(s, r, provider);
    case Runs(id, input, answer) => RunEvolves(s, id, input, answer);
    case Closes(c, refuses) => CloseEvolves(s, c, refuses);
  }

  // Whole lives

  lemma {:induction false} DoAllEvolves(s: Sessions, ds: seq<Deed>)
    requires Inv(s)
    ensures Inv(DoAll(s, ds)) && Evolves(s, DoAll(s, ds))
    decreases ds
  {
    if ds == [] {
      EvolvesRefl(s);
    } else {
      hide Evolves, Do;
      DoEvolves(s, ds[0]);
      DoAllEvolves(Do(s, ds[0]), ds[1..]);
      EvolvesTrans(s, Do(s, ds[0]), DoAll(s, ds));
    }
  }

  lemma {:induction false} DoAllConcat(s: Sessions, a: seq<Deed>, b: seq<Deed>)
    requires s.Valid()
    ensures DoAll(s, a + b) == DoAll(DoAll(s, a), b)
    decreases a
  {
    if a == [] {
      assert a + b == b;
    } else {
      hide Do;
      assert (a + b)[1..] == a[1..] + b;
      DoAllConcat(Do(s, a[0]), a[1..], b);
    }
  }

  lemma InvIsValid(s: Sessions)
    requires Inv(s)
    ensures s.Valid()
  {
  }

  /** Over any life of operations one after the other, from any point to any later one: records are never dropped,
      histories only grow, terminal sessions are final. */
  lemma LifeEvolves(s: Sessions, before: seq<Deed>, after: seq<Deed>)
    requires Inv(s)
    ensures Inv(DoAll(s, before)) && Inv(DoAll(s, before + after))
    ensures Evolves(DoAll(s, before), DoAll(s, before + after))
  {
    InvIsValid(s);
    hide Inv, Evolves, DoAll, Sessions.Valid;
    DoAllEvolves(s, before);
    DoAllEvolves(DoAll(s, before), after);
    DoAllConcat(s, before, after);
  }

  /** No two starts of a life ever ask for the same session id, and none asks for one that is in use. */
  lemma IdsAreNeverReused(s: Sessions, before: seq<Deed>, first: Deed, between: seq<Deed>, second: Request)
    requires Inv(s) && first.Starts?
    ensures var s1, s2 := DoAll(s, before), DoAll(s, before + [first] + between);
            var id := NewHandle(s2, second).sessionId;
            id != NewHandle(s1, first.request).sessionId && id !in s2.records
  {
    var s1, s2 := DoAll(s, before), DoAll(s, before + [first] + between);
    LifeEvolves(s, before, [first]);
    LifeEvolves(s, before + [first], between);
    DoAllConcat(s, before, [first]);
    DoneOnce(s1, first);
    StartEvolves(s1, first.request, first.provider);
    SessionIdsDiffer(SessionStem(first.request), s1.nextId, SessionStem(second), s2.nextId);
    FreshId(s2, SessionStem(second));
  }

  lemma DoneOnce(s: Sessions, d: Deed)
    requires s.Valid()
    ensures DoAll(s, [d]) == Do(s, d)
  {
    hide Do;
    assert [d][1..] == [];
  }

  // Operations while a runner works

  /** A run writes back the record it read before: what other operations did to its session meanwhile is lost when
      the runner returns. So the life is as it should be exactly if the runner raises, or the session is still
      active and its history is as before, or holds just the very turn this run adds. */
  lemma RunKeepsMeanwhileIff(s: Sessions, id: string, input: RunInput, during: seq<Deed>, answer: Option<RunResult>)
    requires Inv(s)
    ensures var (s', outcome) := StageRun(s, id, input, during, answer);
            && Inv(s')
            && (outcome.Returned? ==> s'.records[id].status.Active?
                                      && s'.records[id].turns == s.records[id].turns + [TurnOf(input, answer.value)])
            && (outcome != NotFound ==>
                  var s1 := DoAll(s, during);
                  && id in s1.records
                  && (Evolves(s1, s')
                      <==> (|| outcome.Raised?
                            || (&& s1.records[id].status.Active?
                                && (|| s1.records[id].turns == s.records[id].turns
                                    || s1.records[id].turns == s.records[id].turns + [TurnOf(input, answer.value)])))))
  {
    DoAllEvolves(s, during);
    hide DoAll;
    var s1 := DoAll(s, during);
    var (s', outcome) := StageRun(s, id, input, during, answer);
    if outcome.Raised? {
      EvolvesRefl(s1);
    } else if outcome.Returned? {
      WrittenBackIff(s, s1, id, TurnOf(input, answer.value));
    }
  }

  lemma WrittenBackIff(s: Sessions, s1: Sessions, id: string, turn: Turn)
    requires Inv(s1) && Evolves(s, s1) && id in s.records && s.records[id].status.Active?
    requires s.records[id].handle.sessionId == id
    ensures var s' := Put(s1, s.records[id].(turns := s.records[id].turns + [turn]));
            && Inv(s')
            && (Evolves(s1, s')
                <==> (&& s1.records[id].status.Active?
                      && (|| s1.records[id].turns == s.records[id].turns
                          || s1.records[id].turns == s.records[id].turns + [turn])))
  {
    hide Issued;
    var was, now := s.records[id], s1.records[id];
    var back := was.(turns := was.turns + [turn]);
    var s' := Put(s1, back);
    assert id in s1.order && s'.order == s1.order;
    assert s'.records == s1.records[id := back];
    assert now.turns <= back.turns <==> now.turns == was.turns || now.turns == back.turns;
    if Evolves(s1, s') {
      assert now.turns <= back.turns;
    }
  }

  lemma ClosedOnce(s: Sessions, id: string, c: Closing)
    requires s.Valid() && id in s.records && c.Matches(s.records[id])
    ensures id in Close(s, c, {}).0.records && Close(s, c, {}).0.records[id] == c.Closed(s.records[id])
  {
    hide Close, Closing.Matches, Closing.Closed;
    CloseMeaning(s, c, {});
    assert id in s.order;
    var i :| 0 <= i < |s.order| && s.order[i] == id;
  }

  /** For one, any active session that is closed with its pull request while its runner works is active again when
      the runner returns. */
  lemma ClosedDuringRunIsRevived(s: Sessions, id: string, input: RunInput, result: RunResult, reason: string)
    requires Inv(s) && id in s.records && s.records[id].status.Active?
    ensures var h := s.records[id].handle;
            var during := [Closes(Closing(h.repo, h.prNumber, None, reason), {})];
            && id in DoAll(s, during).records && DoAll(s, during).records[id].status == Completed
            && var s' := StageRun(s, id, input, during, Some(result)).0;
               id in s'.records && s'.records[id].status == Active
  {
    var c := Closing(s.records[id].handle.repo, s.records[id].handle.prNumber, None, reason);
    assert c.Matches(s.records[id]) && c.Closed(s.records[id]).status == Completed;
    ClosedOnce(s, id, c);
    DoneOnce(s, Closes(c, {}));
    RunKeepsMeanwhileIff(s, id, input, [Closes(c, {})], Some(result));
  }
}
