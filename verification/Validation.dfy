/** Validation of one PR event over an agent session (src/runtime/validator/agent_runtime.py). */
module Validation {
  import opened Basics
  import opened Text
  import opened ApiTarget
  import opened AgentSessions
  import opened SessionRuns

  // One action

  datatype ActionType = RunTests | RunLinter | TypeCheck | CheckSecurity | VerifyApiContract | SmokeTest | Custom

  datatype StrategyAction = StrategyAction(kind: ActionType, target: string)

  datatype ValidationOutcome = Pass | Fail | Error | Skipped

  datatype Detail =
    | NoContext | Unsupported | InvalidTarget | NeedsApproval | NotExposed | PolicyDenied
    | RunnerRaised | RunnerStatus(status: RunStatus) | ProbeRaised | Probed

  datatype ValidationResult = ValidationResult(action: StrategyAction, outcome: ValidationOutcome, detail: Detail)

  /** How the probe tool is exposed to the validator stage. */
  datatype Exposure = Hidden | Denied | Exposed

  /** What the runner and the probe executor answer for an action; none if they raise. */
  datatype Answer = Answer(run: Option<RunResult>, probe: Option<ValidationOutcome>)

  /** What stands in the way of running the agent for an action. */
  type Gate = StrategyAction -> Option<ValidationResult>

  function GateOf(exposure: Exposure): Gate {
    (a: StrategyAction) =>
      if a.kind != VerifyApiContract then Some(ValidationResult(a, Skipped, Unsupported)) else
        var parsed := ParseTarget(a.target, Upper, SUPPORTED);
        if parsed.None? then Some(ValidationResult(a, Skipped, InvalidTarget))
        else if parsed.value.0 !in AUTO_RUN then Some(ValidationResult(a, Skipped, NeedsApproval))
        else match exposure
          case Hidden => Some(ValidationResult(a, Error, NotExposed))
          case Denied => Some(ValidationResult(a, Skipped, PolicyDenied))
          case Exposed => None
  }

  /** The target reads as one of the methods, in any case, and a path. */
  ghost predicate ReadsAs(target: string, methods: set<string>) {
    exists lead, word, gap, path, trail ::
      Reads(target, lead, word, gap, path, trail) && Upper(word) in methods && path[0] == '/'
  }

  /** An API contract action whose target reads as a read-only method and a path. */
  ghost predicate ReadOnly(a: StrategyAction) {
    a.kind == VerifyApiContract && ReadsAs(a.target, {"GET", "HEAD", "OPTIONS"})
  }

  /** One whose target reads as any method and a path. */
  ghost predicate Readable(a: StrategyAction) {
    a.kind == VerifyApiContract
    && ReadsAs(a.target, {"GET", "POST", "PUT", "PATCH", "DELETE", "HEAD", "OPTIONS"})
  }

  ghost predicate Runnable(a: StrategyAction, exposure: Exposure) {
    ReadOnly(a) && exposure == Exposed
  }

  /** The agent is run for exactly these; write-like methods and anything else are answered without it. */
  lemma AgentRunsIff(a: StrategyAction, exposure: Exposure)
    ensures GateOf(exposure)(a).None? <==> Runnable(a, exposure)
  {
    RefusalsOf(a, exposure);
  }

  function Validated(a: StrategyAction, gate: Gate, x: Answer): ValidationResult {
    match gate(a)
    case Some(r) => r
    case None =>
      if x.run.None? then ValidationResult(a, Error, RunnerRaised)
      else if x.run.value.status != Succeeded then ValidationResult(a, Error, RunnerStatus(x.run.value.status))
      else match x.probe
        case None => ValidationResult(a, Error, ProbeRaised)
        case Some(o) => ValidationResult(a, o, Probed)
  }

  /** What a result may say: it is about its own action; its outcome is the probe's exactly if the action may be
      run, the agent run succeeded and the probe answered; otherwise it never passes or fails anything. */
  ghost predicate Sound(a: StrategyAction, exposure: Exposure, x: Answer, r: ValidationResult) {
    && r.action == a
    && (r.detail == Probed
        <==> Runnable(a, exposure) && x.run.Some? && x.run.value.status == Succeeded && x.probe.Some?)
    && (r.detail == Probed ==> r.outcome == x.probe.value)
    && (r.detail != Probed ==> r.outcome == Error || r.outcome == Skipped)
    && (Runnable(a, exposure) && r.detail != Probed ==> r.outcome == Error)
    && (Runnable(a, exposure) ==>
          && (r.detail == RunnerRaised <==> x.run.None?)
          && (r.detail.RunnerStatus? <==> x.run.Some? && x.run.value.status != Succeeded)
          && (r.detail.RunnerStatus? ==> r.detail.status == x.run.value.status))
    && (!Runnable(a, exposure) ==> (r.outcome == Error <==> r.detail == NotExposed))
    && Refused(a, exposure, r.detail)
  }

  /** Which refusal is given, and when. */
  ghost predicate Refused(a: StrategyAction, exposure: Exposure, d: Detail) {
    && (d == Unsupported <==> a.kind != VerifyApiContract)
    && (d == InvalidTarget <==> a.kind == VerifyApiContract && !Readable(a))
    && (d == NeedsApproval <==> Readable(a) && !ReadOnly(a))
    && (d == NotExposed <==> ReadOnly(a) && exposure == Hidden)
    && (d == PolicyDenied <==> ReadOnly(a) && exposure == Denied)
  }

  lemma RefusalsOf(a: StrategyAction, exposure: Exposure)
    ensures GateOf(exposure)(a).None? <==> Runnable(a, exposure)
    ensures ReadOnly(a) ==> Readable(a)
    ensures GateOf(exposure)(a).Some? ==>
              var r := GateOf(exposure)(a).value;
              && r.action == a && Refused(a, exposure, r.detail)
              && r.detail in {Unsupported, InvalidTarget, NeedsApproval, NotExposed, PolicyDenied}
              && r.outcome == (if r.detail == NotExposed then Error else Skipped)
  {
    ReadingsOf(a.target);
    hide ParseTarget, ReadsAs, Upper;
  }

  lemma ReadingsOf(target: string)
    ensures ParseTarget(target, Upper, SUPPORTED).Some?
            <==> ReadsAs(target, {"GET", "POST", "PUT", "PATCH", "DELETE", "HEAD", "OPTIONS"})
    ensures ParseTarget(target, Upper, SUPPORTED).Some? && ParseTarget(target, Upper, SUPPORTED).value.0 in AUTO_RUN
            <==> ReadsAs(target, {"GET", "HEAD", "OPTIONS"})
    ensures ReadsAs(target, {"GET", "HEAD", "OPTIONS"})
            ==> ReadsAs(target, {"GET", "POST", "PUT", "PATCH", "DELETE", "HEAD", "OPTIONS"})
  {
    assert Upper("") == "";
    hide Reads, Upper, Strip;
    ParsesAsOneOfIff(target, Upper, SUPPORTED, AUTO_RUN);
    ParsesAsOneOfIff(target, Upper, SUPPORTED, SUPPORTED);
  }

  /** The verdict on an action, through the gate the validator uses, is sound. */
  lemma VerdictIsSound(a: StrategyAction, exposure: Exposure, x: Answer)
    ensures Sound(a, exposure, x, Validated(a, GateOf(exposure), x))
  {
    hide GateOf, ReadsAs;
    RefusalsOf(a, exposure);
  }

  /** The turn an action leaves behind: only if the agent was run for it and returned. */
  function TurnsOf(input: RunInput, a: StrategyAction, gate: Gate, x: Answer): seq<Turn> {
    if gate(a).None? && x.run.Some? then [TurnOf(input, x.run.value)] else []
  }

  function Turns(input: RunInput, actions: seq<StrategyAction>, gate: Gate, answers: seq<Answer>): seq<Turn>
    requires |actions| == |answers|
  {
    if actions == [] then [] else
      var n := |actions| - 1;
      Turns(input, actions[..n], gate, answers[..n]) + TurnsOf(input, actions[n], gate, answers[n])
  }

  /** Turns added to one session. */
  function WithTurns(s: Sessions, id: string, turns: seq<Turn>): Sessions
    requires id in s.records
  {
    s.(records := s.records[id := s.records[id].(turns := s.records[id].turns + turns)])
  }

  lemma NoTurns(s: Sessions, id: string)
    requires id in s.records
    ensures WithTurns(s, id, []) == s
  {
    assert s.records[id].turns + [] == s.records[id].turns;
    assert s.records[id := s.records[id]] == s.records;
  }

  lemma MoreTurns(s: Sessions, id: string, ts: seq<Turn>, us: seq<Turn>)
    requires id in s.records
    ensures WithTurns(WithTurns(s, id, ts), id, us) == WithTurns(s, id, ts + us)
  {
    assert s.records[id].turns + ts + us == s.records[id].turns + (ts + us);
  }

  // One event

  datatype Event = Event(repo: string, prNumber: int, headSha: string, trigger: string, correlationId: string)
  {
    predicate Complete() {
      Strip(repo) != "" && prNumber > 0 && Strip(headSha) != "" && Strip(correlationId) != ""
    }

    function AsRequest(): Request {
      Request(repo, prNumber, headSha, trigger, correlationId)
    }

    function Input(tools: seq<string>): RunInput {
      RunInput("validator", correlationId, tools)
    }

    function Done(): Closing {
      Closing(repo, prNumber, None, "validation stage complete")
    }
  }

  /** An event is validated exactly if it has a positive number and none of its three texts is blank. */
  lemma CompleteIff(event: Event)
    ensures event.Complete()
            <==> event.prNumber >= 1 && !Spaces(event.repo) && !Spaces(event.headSha) && !Spaces(event.correlationId)
  {
    hide Strip;
    StripIsEmptyIff(event.repo);
    StripIsEmptyIff(event.headSha);
    StripIsEmptyIff(event.correlationId);
  }

  /** The turn an action of an event leaves: one of the validator stage, under the event's correlation id and with the
      validator's tools, exactly if the action may be run and the run returned. */
  lemma EventTurn(event: Event, tools: seq<string>, a: StrategyAction, exposure: Exposure, x: Answer)
    ensures var ts := TurnsOf(event.Input(tools), a, GateOf(exposure), x);
            if Runnable(a, exposure) && x.run.Some?
            then |ts| == 1
                 && (ts[0].stage, ts[0].correlationId, ts[0].allowedTools) == ("validator", event.correlationId, tools)
                 && (ts[0].status, ts[0].error) == (x.run.value.status, x.run.value.error)
            else ts == []
  {
    AgentRunsIff(a, exposure);
    hide GateOf, Runnable;
  }

  /** The sessions after the event's session was started and its actions were run. */
  function Served(s: Sessions, r: Request, provider: string, turns: seq<Turn>): Sessions
  {
    WithTurns(Start(s, r, Asked(s, r, Some(provider))), NewHandle(s, r).sessionId, turns)
  }

  class AgentRuntimePRValidator {
    const sessions: WorkflowAgentSessionManager
    const tools: seq<string>

    constructor (sessions: WorkflowAgentSessionManager, tools: seq<string>)
      ensures this.sessions == sessions && this.tools == tools
    {
      this.sessions, this.tools := sessions, tools;
    }

    method ValidateForEvent(event: Event, actions: seq<StrategyAction>, exposure: Exposure, answers: seq<Answer>,
                            provider: Option<string>, refuses: set<string>)
      returns (results: Option<seq<ValidationResult>>)
      requires |answers| == |actions| && Inv(sessions.View())
      modifies sessions
      ensures !event.Complete() ==>
                && sessions.View() == old(sessions.View())
                && results == Some(Map((a: StrategyAction) => ValidationResult(a, Error, NoContext), actions))
      ensures event.Complete() && provider.None? ==>
                results == None && sessions.View() == Start(old(sessions.View()), event.AsRequest(), None)
      ensures event.Complete() && provider.Some? ==>
                var served := Served(old(sessions.View()), event.AsRequest(), provider.value,
                                     Turns(event.Input(tools), actions, GateOf(exposure), answers));
                && served.Valid()
                && sessions.View() == Close(served, event.Done(), refuses).0
                && (results.Some? <==> Close(served, event.Done(), refuses).1.Some?)
      ensures results.Some? && event.Complete() ==>
                && |results.value| == |actions|
                && forall i :: 0 <= i < |actions| ==> Sound(actions[i], exposure, answers[i], results.value[i])
    {
      hide GateOf, Sound, Strip;
      if !event.Complete() {
        return Some(Map((a: StrategyAction) => ValidationResult(a, Error, NoContext), actions));
      }
      var r := event.AsRequest();
      var h := Asked(sessions.View(), r, provider);
      StartIsFresh(sessions.View(), r, provider);
      var record := sessions.StartWorkflowSession(r, h);
      if record.None? {
        return None;
      }
      var done := RunActions(event.Input(tools), actions, exposure, answers, record.value.handle.sessionId);
      var closed := sessions.ClosePRSessions(event.repo, event.prNumber, event.Done().reason, refuses);
      return if closed.Some? then Some(done) else None;
    }

    /** The results match the actions one to one, in order. */
    method RunActions(input: RunInput, actions: seq<StrategyAction>, exposure: Exposure, answers: seq<Answer>, id: string)
      returns (results: seq<ValidationResult>)
      requires |answers| == |actions| && sessions.View().Valid()
      requires id in sessions.records && sessions.records[id].status.Active?
      modifies sessions
      ensures sessions.View() == WithTurns(old(sessions.View()), id, Turns(input, actions, GateOf(exposure), answers))
      ensures sessions.View().Valid()
      ensures |results| == |actions|
      ensures forall i :: 0 <= i < |actions| ==> Sound(actions[i], exposure, answers[i], results[i])
    {
      hide Validated, TurnsOf, WithTurns, GateOf, Sound;
      results := [];
      NoTurns(sessions.View(), id);
      for n := 0 to |actions|
        invariant sessions.View().Valid() && id in sessions.records && sessions.records[id].status.Active?
        invariant sessions.View()
               == WithTurns(old(sessions.View()), id, Turns(input, actions[..n], GateOf(exposure), answers[..n]))
        invariant |results| == n && forall i :: 0 <= i < n ==> Sound(actions[i], exposure, answers[i], results[i])
      {
        assert actions[..n + 1][..n] == actions[..n] && answers[..n + 1][..n] == answers[..n];
        MoreTurns(old(sessions.View()), id, Turns(input, actions[..n], GateOf(exposure), answers[..n]),
                  TurnsOf(input, actions[n], GateOf(exposure), answers[n]));
        var r := RunAction(input, actions[n], exposure, answers[n], id);
        results := results + [r];
      }
      assert actions[..|actions|] == actions && answers[..|actions|] == answers;
    }

    method RunAction(input: RunInput, action: StrategyAction, exposure: Exposure, answer: Answer, id: string)
      returns (result: ValidationResult)
      requires sessions.View().Valid()
      requires id in sessions.records && sessions.records[id].status.Active?
      modifies sessions
      ensures sessions.View() == WithTurns(old(sessions.View()), id, TurnsOf(input, action, GateOf(exposure), answer))
      ensures sessions.View().Valid() && id in sessions.records && sessions.records[id].status.Active?
      ensures result == Validated(action, GateOf(exposure), answer) && Sound(action, exposure, answer, result)
    {
      VerdictIsSound(action, exposure, answer);
      hide GateOf, Sound;
      NoTurns(sessions.View(), id);
      var refusal := GateOf(exposure)(action);
      if refusal.Some? {
        return refusal.value;
      }
      var outcome := sessions.RunStage(id, input, [], answer.run);
      if !outcome.Returned? {
        return ValidationResult(action, Error, RunnerRaised);
      }
      if outcome.result.status != Succeeded {
        return ValidationResult(action, Error, RunnerStatus(outcome.result.status));
      }
      if answer.probe.None? {
        return ValidationResult(action, Error, ProbeRaised);
      }
      return ValidationResult(action, answer.probe.value, Probed);
    }
  }

  // What the sessions look like afterwards

  lemma StartIsFresh(s: Sessions, r: Request, provider: Option<string>)
    requires Inv(s)
    ensures var s', id := Start(s, r, Asked(s, r, provider)), NewHandle(s, r).sessionId;
            && Inv(s') && id !in s.records
            && (provider.Some? ==> id in s'.records && s'.records[id].status.Active? && s'.records[id].turns == [])
  {
    StartEvolves(s, r, provider);
    FreshId(s, SessionStem(r));
  }

  ghost predicate NoneActive(s: Sessions, repo: string, prNumber: int) {
    forall id <- s.records ::
      s.records[id].status.Active? ==> !(s.records[id].handle.repo == repo && s.records[id].handle.prNumber == prNumber)
  }

  /** What serving an event leaves: the earlier sessions as they were and one new active one with the turns. */
  lemma ServedIs(s: Sessions, r: Request, provider: string, turns: seq<Turn>)
    requires Inv(s)
    ensures var s', id := Served(s, r, provider, turns), NewHandle(s, r).sessionId;
            && Inv(s') && Evolves(s, s') && id !in s.records
            && s'.records == s.records[id := Record(NewHandle(s, r).(providerId := provider), Active, turns, "")]
  {
    hide SessionId, SessionStem, Issued;
    StartEvolves(s, r, Some(provider));
    StartIsFresh(s, r, Some(provider));
    var s1 := Start(s, r, Asked(s, r, Some(provider)));
    var id := NewHandle(s, r).sessionId;
    assert [] + turns == turns;
    assert WithTurns(s1, id, turns).order == s1.order;
  }

  /** The runner refuses to close the session this event starts, or an older active one of its pull request. */
  ghost predicate RefusesOne(s: Sessions, r: Request, refuses: set<string>) {
    || NewHandle(s, r).sessionId in refuses
    || exists id <- s.records :: s.records[id].status == Active && s.records[id].handle.repo == r.repo
                                 && s.records[id].handle.prNumber == r.prNumber && id in refuses
  }

  /** The sessions after an event: nothing is dropped or revived, the new session holds one turn per action the
      agent was run for; the closing fails exactly when the runner refuses a session of this pull request, and
      otherwise leaves none of them active. */
  lemma EventClosesSessions(s: Sessions, event: Event, provider: string, turns: seq<Turn>, refuses: set<string>)
    requires Inv(s)
    ensures var r, id := event.AsRequest(), NewHandle(s, event.AsRequest()).sessionId;
            var (s', closed) := Close(Served(s, r, provider, turns), event.Done(), refuses);
            && Inv(s') && Evolves(s, s')
            && id !in s.records && id in s'.records && s'.records[id].turns == turns
            && (var h := s'.records[id].handle;
                && (h.repo, h.prNumber, h.headSha) == (event.repo, event.prNumber, event.headSha)
                && (h.trigger, h.correlationId, h.providerId) == (event.trigger, event.correlationId, provider))
            && (closed.Some? <==> !RefusesOne(s, r, refuses))
            && (closed.Some? ==> NoneActive(s', event.repo, event.prNumber))
            && (closed.Some? ==> s'.records[id].status == Completed
                                 && s'.records[id].reason == "validation stage complete")
            && (forall x <- s.records ::
                  (|| s.records[x].status != Active || s.records[x].handle.repo != event.repo
                   || s.records[x].handle.prNumber != event.prNumber) ==> s'.records[x] == s.records[x])
  {
    var r, c := event.AsRequest(), event.Done();
    var served := Served(s, r, provider, turns);
    ServedIs(s, r, provider, turns);
    CloseEvolves(served, c, refuses);
    EvolvesTrans(s, served, Close(served, c, refuses).0);
    RefusalsAgree(s, served, r, provider, turns, c, refuses);
    ClosedMeansNoneActive(served, c, refuses);
    CloseKeepsTurns(served, c, refuses, NewHandle(s, r).sessionId);
    ClosedEvent(s, served, event, NewHandle(s, r).sessionId, refuses);
  }

  lemma ClosedEvent(s: Sessions, served: Sessions, event: Event, id: string, refuses: set<string>)
    requires served.Valid() && id !in s.records && id in served.records
    requires served.records == s.records[id := served.records[id]] && served.records[id].status == Active
    requires served.records[id].handle.repo == event.repo && served.records[id].handle.prNumber == event.prNumber
    ensures var (s', closed) := Close(served, event.Done(), refuses);
            && s'.records.Keys == served.records.Keys
            && (closed.Some? ==> s'.records[id].status == Completed
                                 && s'.records[id].reason == "validation stage complete")
            && (forall x <- s.records ::
                  (|| s.records[x].status != Active || s.records[x].handle.repo != event.repo
                   || s.records[x].handle.prNumber != event.prNumber) ==> s'.records[x] == s.records[x])
  {
    ClosingInFields(served, event.Done(), refuses);
    hide Close;
    var (s', closed) := Close(served, event.Done(), refuses);
    assert OneClosed(served.records[id], s'.records[id], closed, event.repo, event.prNumber, None,
                     "validation stage complete");
    forall x <- s.records
      ensures OneClosed(s.records[x], s'.records[x], closed, event.repo, event.prNumber, None,
                        "validation stage complete")
    {
      assert served.records[x] == s.records[x];
    }
  }

  lemma CloseKeepsTurns(s: Sessions, c: Closing, refuses: set<string>, id: string)
    requires s.Valid() && id in s.records
    ensures id in Close(s, c, refuses).0.records && Close(s, c, refuses).0.records[id].turns == s.records[id].turns
  {
    CloseMeaning(s, c, refuses);
    assert id in s.order;
    var i :| 0 <= i < |s.order| && s.order[i] == id;
  }

  lemma ClosedMeansNoneActive(s: Sessions, c: Closing, refuses: set<string>)
    requires s.Valid() && c.spare.None?
    ensures Close(s, c, refuses).1.Some? ==> NoneActive(Close(s, c, refuses).0, c.repo, c.prNumber)
  {
    CloseMeaning(s, c, refuses);
    var (s', closed) := Close(s, c, refuses);
    if closed.Some? {
      forall id <- s'.records
        ensures s'.records[id].status.Active? ==>
                  !(s'.records[id].handle.repo == c.repo && s'.records[id].handle.prNumber == c.prNumber)
      {
        assert id in s'.order;
        var i :| 0 <= i < |s.order| && s.order[i] == id;
      }
    }
  }

  lemma RefusalsAgree(s: Sessions, served: Sessions, r: Request, provider: string, turns: seq<Turn>, c: Closing,
      refuses: set<string>)
    requires Inv(s) && served.Valid() && c.spare.None? && c.repo == r.repo && c.prNumber == r.prNumber
    requires NewHandle(s, r).sessionId !in s.records
    requires served.records
          == s.records[NewHandle(s, r).sessionId := Record(NewHandle(s, r).(providerId := provider), Active, turns, "")]
    ensures Close(served, c, refuses).1.Some? <==> !RefusesOne(s, r, refuses)
  {
    hide Close, SessionId, SessionStem, Closing.Matches, Closing.Closed, Stop;
    CloseMeaning(served, c, refuses);
    var id := NewHandle(s, r).sessionId;
    forall x: Record
      ensures c.Matches(x) <==> x.status == Active && x.handle.repo == r.repo && x.handle.prNumber == r.prNumber
    {
      MatchesIff(c, x);
    }
    assert c.Matches(served.records[id]);
    assert forall x <- s.records :: served.records[x] == s.records[x];
    assert forall x <- served.records :: x == id || x in s.records;
  }
}
