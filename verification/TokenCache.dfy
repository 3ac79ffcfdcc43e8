/** The installation-token cache with double-checked locking (src/adapters/connectors/github/auth.py),
    as a method and as interleaved steps of any number of threads. */
module TokenCache {
  import opened Basics

  const SKEW_SECONDS := 60.0

  datatype Token = Token(text: string, expiresAt: real)

  predicate Usable(cached: Option<Token>, now: real) {
    cached.Some? && cached.value.expiresAt - SKEW_SECONDS > now
  }

  /** Good for more than a minute; stated apart from the code's own test. */
  predicate Good(token: Option<Token>, now: real) {
    token.Some? && token.value.expiresAt > now + 60.0
  }

  /** How a call got its token: a check against a clock reading of its own, or its own exchange. */
  datatype Path = Unlocked(now: real) | Rechecked(now: real) | Exchanged

  datatype Outcome = Returned(token: Token, path: Path) | Raised

  /** One call on its own: new cache content and outcome. */
  function Call(cached: Option<Token>, now: real, lockedNow: real, exchange: Option<Token>): (Option<Token>, Outcome) {
    if Usable(cached, now) then (cached, Returned(cached.value, Unlocked(now)))
    else if Usable(cached, lockedNow) then (cached, Returned(cached.value, Rechecked(lockedNow)))
    else if exchange.None? then (cached, Raised)
    else (exchange, Returned(exchange.value, Exchanged))
  }

  class GitHubAppAuth {
    var cached: Option<Token>

    constructor ()
      ensures cached.None?
    {
      cached := None;
    }

    /** `installation_token` run by one thread alone. `exchange` is the token GitHub would issue, None if the
        request, its status or its payload fails. */
    method InstallationToken(now: real, lockedNow: real, exchange: Option<Token>) returns (r: Outcome)
      modifies this
      ensures (cached, r) == Call(old(cached), now, lockedNow, exchange)
      ensures r.Raised? ==> cached == old(cached)
      ensures r.Returned? ==> cached == Some(r.token)
      ensures r.Returned? && !r.path.Exchanged? ==> cached == old(cached) && Usable(cached, r.path.now)
      // a token good for more than a minute at either reading is returned as it is, otherwise one is exchanged
      ensures Good(old(cached), now) ==> r == Returned(old(cached).value, Unlocked(now))
      ensures !Good(old(cached), now) && Good(old(cached), lockedNow) ==>
                r == Returned(old(cached).value, Rechecked(lockedNow))
      ensures !Good(old(cached), now) && !Good(old(cached), lockedNow) ==>
                r == if exchange.Some? then Returned(exchange.value, Exchanged) else Raised
    {
      var seen := cached;
      if Usable(seen, now) {
        return Returned(seen.value, Unlocked(now));
      }
      seen := cached;
      if Usable(seen, lockedNow) {
        return Returned(seen.value, Rechecked(lockedNow));
      }
      if exchange.None? {
        return Raised;
      }
      cached := exchange;
      return Returned(cached.value, Exchanged);
    }
  }

  // Threads

  /** Where a thread is inside `installation_token`; from Locked to Releasing it is inside `with self._lock`. */
  datatype Pc =
    | Idle
    | Reading(call: nat, now: real)
    | Waiting(call: nat)
    | Locked(call: nat)
    | Rereading(call: nat, seen: Option<Token>)
    | Exchanging(call: nat, lockedNow: real)
    | Stored(call: nat, token: Token)
    | Releasing(call: nat, outcome: Outcome)
  {
    predicate InLock() {
      Locked? || Rereading? || Exchanging? || Stored? || Releasing?
    }
  }

  /** A successful exchange: by which call, for which token, on which locked clock reading. */
  datatype Exchange = Exchange(call: nat, token: Token, lockedNow: real)

  datatype Finished = Finished(call: nat, outcome: Outcome)

  datatype State = State(
    threads: seq<Pc>, cached: Option<Token>, lock: Option<nat>, calls: nat,
    exchanges: seq<Exchange>, finished: seq<Finished>)

  function Init(n: nat): State {
    State(seq(n, _ => Idle), None, None, 0, [], [])
  }

  datatype Step =
    | ReadClock(t: nat, now: real)
    | CheckUnlocked(t: nat)
    | Acquire(t: nat)
    | ReadCache(t: nat)
    | Recheck(t: nat, now: real)
    | ExchangeOk(t: nat, token: Token)
    | ExchangeFails(t: nat)
    | ReadBack(t: nat)
    | Release(t: nat)

  predicate Enabled(s: State, step: Step) {
    && step.t < |s.threads|
    && var pc := s.threads[step.t];
       match step
       case ReadClock(_, _) => pc.Idle?
       case CheckUnlocked(_) => pc.Reading?
       case Acquire(_) => pc.Waiting? && s.lock.None?
       case ReadCache(_) => pc.Locked?
       case Recheck(_, _) => pc.Rereading?
       case ExchangeOk(_, _) => pc.Exchanging?
       case ExchangeFails(_) => pc.Exchanging?
       case ReadBack(_) => pc.Stored? && s.cached.Some?
       case Release(_) => pc.Releasing?
  }

  function Goto(s: State, t: nat, pc: Pc): State
    requires t < |s.threads|
  {
    s.(threads := s.threads[t := pc])
  }

  function Apply(s: State, step: Step): State
    requires Enabled(s, step)
  {
    var t, pc := step.t, s.threads[step.t];
    match step
    case ReadClock(_, now) => Goto(s, t, Reading(s.calls, now)).(calls := s.calls + 1)
    case CheckUnlocked(_) =>
      if Usable(s.cached, pc.now)
      then Goto(s, t, Idle).(finished := s.finished + [Finished(pc.call, Returned(s.cached.value, Unlocked(pc.now)))])
      else Goto(s, t, Waiting(pc.call))
    case Acquire(_) => Goto(s, t, Locked(pc.call)).(lock := Some(t))
    case ReadCache(_) => Goto(s, t, Rereading(pc.call, s.cached))
    case Recheck(_, now) =>
      if Usable(pc.seen, now)
      then Goto(s, t, Releasing(pc.call, Returned(pc.seen.value, Rechecked(now))))
      else Goto(s, t, Exchanging(pc.call, now))
    case ExchangeOk(_, token) =>
      Goto(s, t, Stored(pc.call, token))
        .(cached := Some(token), exchanges := s.exchanges + [Exchange(pc.call, token, pc.lockedNow)])
    case ExchangeFails(_) => Goto(s, t, Releasing(pc.call, Raised))
    case ReadBack(_) => Goto(s, t, Releasing(pc.call, Returned(s.cached.value, Exchanged)))
    case Release(_) =>
      Goto(s, t, Idle).(lock := None, finished := s.finished + [Finished(pc.call, pc.outcome)])
  }

  /** `steps` can be taken from `s`, one after the other. */
  predicate Legal(s: State, steps: seq<Step>)
    decreases steps
  {
    steps == [] || (Enabled(s, steps[0]) && Legal(Apply(s, steps[0]), steps[1..]))
  }

  function Exec(s: State, steps: seq<Step>): State
    requires Legal(s, steps)
    decreases steps
  {
    if steps == [] then s else Exec(Apply(s, steps[0]), steps[1..])
  }

  // Invariant

  ghost predicate LockHeld(s: State) {
    && (s.lock.Some? ==> s.lock.value < |s.threads|)
    && forall t :: 0 <= t < |s.threads| ==> (s.threads[t].InLock() <==> s.lock == Some(t))
  }

  /** The cache holds the token of the last successful exchange. */
  ghost predicate CacheIsLast(s: State) {
    s.cached == if s.exchanges == [] then None else Some(s.exchanges[|s.exchanges| - 1].token)
  }

  /** A new exchange happens only once the previous token is within a minute of its expiry. */
  ghost predicate Spaced(exchanges: seq<Exchange>) {
    forall i :: 0 < i < |exchanges| ==>
      exchanges[i].lockedNow >= exchanges[i - 1].token.expiresAt - 60.0
  }

  ghost predicate Issued(exchanges: seq<Exchange>, token: Token) {
    exists e <- exchanges :: e.token == token
  }

  ghost predicate IssuedTo(exchanges: seq<Exchange>, call: nat, token: Token) {
    exists e <- exchanges :: e.call == call && e.token == token
  }

  /** A returned token was issued by an exchange: this call's own, or one that a clock reading of this call
      found to be more than the skew away from expiry. */
  ghost predicate Justified(exchanges: seq<Exchange>, call: nat, o: Outcome) {
    o.Returned? ==>
      if o.path.Exchanged? then IssuedTo(exchanges, call, o.token)
      else Issued(exchanges, o.token) && Usable(Some(o.token), o.path.now)
  }

  ghost predicate ThreadOk(s: State, pc: Pc) {
    match pc
    case Rereading(_, seen) => seen == s.cached
    case Exchanging(_, now) => !Usable(s.cached, now)
    case Stored(call, token) => s.cached == Some(token) && IssuedTo(s.exchanges, call, token)
    case Releasing(call, o) => Justified(s.exchanges, call, o)
    case _ => true
  }

  ghost predicate Inv(s: State) {
    && LockHeld(s) && CacheIsLast(s) && Spaced(s.exchanges)
    && (forall t :: 0 <= t < |s.threads| ==> ThreadOk(s, s.threads[t]))
    && (forall f <- s.finished :: Justified(s.exchanges, f.call, f.outcome))
  }

  lemma CachedIsIssued(s: State)
    requires CacheIsLast(s) && s.cached.Some?
    ensures Issued(s.exchanges, s.cached.value)
  {
    assert s.exchanges[|s.exchanges| - 1] in s.exchanges;
  }

  lemma JustifiedStays(exchanges: seq<Exchange>, e: Exchange, call: nat, o: Outcome)
    requires Justified(exchanges, call, o)
    ensures Justified(exchanges + [e], call, o)
  {
    if o.Returned? {
      var x :| x in exchanges && x.token == o.token && (o.path.Exchanged? ==> x.call == call);
      assert x in exchanges + [e];
    }
  }

  /** An exchange changes the cache under other threads' feet, but none of them is inside the lock. */
  lemma ExchangeKeepsInv(s: State, t: nat, token: Token)
    requires Inv(s) && Enabled(s, ExchangeOk(t, token))
    ensures Inv(Apply(s, ExchangeOk(t, token)))
  {
    var s' := Apply(s, ExchangeOk(t, token));
    var e := Exchange(s.threads[t].call, token, s.threads[t].lockedNow);
    assert ThreadOk(s, s.threads[t]);
    assert e in s'.exchanges;
    forall f <- s.finished ensures Justified(s'.exchanges, f.call, f.outcome) {
      JustifiedStays(s.exchanges, e, f.call, f.outcome);
    }
    hide Justified, Usable;
    forall u | 0 <= u < |s.threads| ensures ThreadOk(s', s'.threads[u]) {
      assert s.threads[u].InLock() <==> s.lock == Some(u);
    }
  }

  lemma LockStaysHeld(s: State, step: Step)
    requires LockHeld(s) && Enabled(s, step)
    ensures LockHeld(Apply(s, step))
  {
    hide Usable;
    assert s.threads[step.t].InLock() <==> s.lock == Some(step.t);
  }

  /** A step other than a successful exchange: what the thread that takes it is left with. */
  lemma OwnThreadOk(s: State, step: Step)
    requires CacheIsLast(s) && Enabled(s, step) && ThreadOk(s, s.threads[step.t]) && !step.ExchangeOk?
    ensures ThreadOk(Apply(s, step), Apply(s, step).threads[step.t])
  {
    if s.cached.Some? {
      CachedIsIssued(s);
    }
  }

  lemma FinishedStayJustified(s: State, step: Step)
    requires CacheIsLast(s) && Enabled(s, step) && ThreadOk(s, s.threads[step.t]) && !step.ExchangeOk?
    requires forall f <- s.finished :: Justified(s.exchanges, f.call, f.outcome)
    ensures forall f <- Apply(s, step).finished :: Justified(Apply(s, step).exchanges, f.call, f.outcome)
  {
    if s.cached.Some? {
      CachedIsIssued(s);
    }
  }

  lemma StepKeepsInv(s: State, step: Step)
    requires Inv(s) && Enabled(s, step)
    ensures Inv(Apply(s, step))
  {
    hide Usable, Justified, LockHeld, Spaced;
    if step.ExchangeOk? {
      ExchangeKeepsInv(s, step.t, step.token);
    } else {
      var s' := Apply(s, step);
      LockStaysHeld(s, step);
      OwnThreadOk(s, step);
      FinishedStayJustified(s, step);
      assert s'.exchanges == s.exchanges && s'.cached == s.cached;
      forall u | 0 <= u < |s'.threads| ensures ThreadOk(s', s'.threads[u]) {
        assert u != step.t ==> s'.threads[u] == s.threads[u] && ThreadOk(s, s.threads[u]);
      }
    }
  }

  /** Every state any number of threads can reach under any interleaving keeps the invariant. */
  lemma {:induction false} RunsKeepInv(s: State, steps: seq<Step>)
    requires Inv(s) && Legal(s, steps)
    ensures Inv(Exec(s, steps))
    decreases steps
  {
    if steps != [] {
      StepKeepsInv(s, steps[0]);
      RunsKeepInv(Apply(s, steps[0]), steps[1..]);
    }
  }

  /** Single-flight refresh under every interleaving. */
  lemma SingleFlight(n: nat, steps: seq<Step>)
    requires Legal(Init(n), steps)
    ensures var s := Exec(Init(n), steps);
            // exchanges happen one at a time
            && (forall t, u | 0 <= t < |s.threads| && 0 <= u < |s.threads| ::
                  s.threads[t].Exchanging? && s.threads[u].Exchanging? ==> t == u)
            // a later exchange needs a clock reading within the skew of the earlier token's expiry
            && Spaced(s.exchanges)
            // the cache is the last successful exchange's token: failed exchanges leave it alone
            && CacheIsLast(s)
            // every returned token is justified by its own call
            && (forall f <- s.finished :: Justified(s.exchanges, f.call, f.outcome))
            // and, unless the call exchanged it, is good for more than a minute after a reading of that call
            && (forall f <- s.finished :: f.outcome.Returned? && !f.outcome.path.Exchanged? ==>
                  Good(Some(f.outcome.token), f.outcome.path.now))
  {
    RunsKeepInv(Init(n), steps);
    var s := Exec(Init(n), steps);
    assert forall t :: 0 <= t < |s.threads| && s.threads[t].Exchanging? ==> s.threads[t].InLock();
  }

  /** However many threads ask, refreshes are rare: when every issued token is good for at least `life` seconds
      after the reading that led to it, the k-th later exchange reads a clock at least k times `life` later. */
  lemma ExchangeRate(n: nat, steps: seq<Step>, life: real, k: nat)
    requires Legal(Init(n), steps)
    requires forall e <- Exec(Init(n), steps).exchanges :: e.token.expiresAt - 60.0 >= e.lockedNow + life
    requires k < |Exec(Init(n), steps).exchanges|
    ensures var es := Exec(Init(n), steps).exchanges;
            es[k].lockedNow >= es[0].lockedNow + k as real * life
  {
    SingleFlight(n, steps);
    SpacedRate(Exec(Init(n), steps).exchanges, life, k);
  }

  lemma {:induction false} SpacedRate(es: seq<Exchange>, life: real, k: nat)
    requires Spaced(es) && k < |es|
    requires forall e <- es :: e.token.expiresAt - 60.0 >= e.lockedNow + life
    ensures es[k].lockedNow >= es[0].lockedNow + k as real * life
  {
    if k > 0 {
      SpacedRate(es, life, k - 1);
      assert es[k - 1] in es;
      assert k as real * life == (k - 1) as real * life + life;
    }
  }

  /** The step a thread inside a call takes next, when nothing more is issued. */
  function NextStep(s: State, t: nat): Step
    requires t < |s.threads| && !s.threads[t].Idle?
  {
    match s.threads[t]
    case Reading(_, _) => CheckUnlocked(t)
    case Waiting(_) => Acquire(t)
    case Locked(_) => ReadCache(t)
    case Rereading(_, _) => Recheck(t, 0.0)
    case Exchanging(_, _) => ExchangeFails(t)
    case Stored(_, _) => ReadBack(t)
    case Releasing(_, _) => Release(t)
  }

  /** No interleaving gets stuck: while a thread is inside a call, some step inside a call can be taken. */
  lemma NoDeadlock(n: nat, steps: seq<Step>, t: nat)
    requires Legal(Init(n), steps) && t < |Exec(Init(n), steps).threads|
    requires !Exec(Init(n), steps).threads[t].Idle?
    ensures exists step :: Enabled(Exec(Init(n), steps), step) && !step.ReadClock?
  {
    RunsKeepInv(Init(n), steps);
    var s := Exec(Init(n), steps);
    var u := if s.threads[t].Waiting? && s.lock.Some? then s.lock.value else t;
    assert s.threads[u].InLock() <==> s.lock == Some(u);
    assert ThreadOk(s, s.threads[u]);
    assert Enabled(s, NextStep(s, u));
  }

  lemma {:induction false} ExecConcat(s: State, a: seq<Step>, b: seq<Step>)
    requires Legal(s, a) && Legal(Exec(s, a), b)
    ensures Legal(s, a + b) && Exec(s, a + b) == Exec(Exec(s, a), b)
    decreases a
  {
    if a == [] {
      assert a + b == b;
    } else {
      assert (a + b)[1..] == a[1..] + b;
      ExecConcat(Apply(s, a[0]), a[1..], b);
    }
  }

  lemma OneStep(s: State, step: Step)
    requires Enabled(s, step)
    ensures Legal(s, [step]) && Exec(s, [step]) == Apply(s, step)
  {
    assert [step][1..] == [];
  }

  lemma TwoSteps(s: State, a: Step, b: Step)
    requires Enabled(s, a) && Enabled(Apply(s, a), b)
    ensures Legal(s, [a, b]) && Exec(s, [a, b]) == Apply(Apply(s, a), b)
  {
    OneStep(s, a);
    OneStep(Apply(s, a), b);
    ExecConcat(s, [a], [b]);
    assert [a] + [b] == [a, b];
  }

  // Every call can be finished

  /** Steps a thread still has to take. */
  function StepsLeft(pc: Pc): nat {
    match pc
    case Idle => 0
    case Releasing(_, _) => 1
    case Stored(_, _) => 2
    case Exchanging(_, _) => 3
    case Rereading(_, _) => 4
    case Locked(_) => 5
    case Waiting(_) => 6
    case Reading(_, _) => 7
  }

  function CallOf(pc: Pc): Option<nat> {
    match pc
    case Idle => None
    case Reading(call, _) => Some(call)
    case Waiting(call) => Some(call)
    case Locked(call) => Some(call)
    case Rereading(call, _) => Some(call)
    case Exchanging(call, _) => Some(call)
    case Stored(call, _) => Some(call)
    case Releasing(call, _) => Some(call)
  }

  ghost predicate HasFinished(s: State, call: nat) {
    exists f <- s.finished :: f.call == call
  }

  /** The next step of a thread that has the lock or finds it free: it comes closer to the end of its call, and
      the other threads stay where they are. */
  lemma NextStepProgresses(s: State, t: nat)
    requires Inv(s) && t < |s.threads| && !s.threads[t].Idle? && (s.lock.None? || s.lock == Some(t))
    ensures Enabled(s, NextStep(s, t))
    ensures var s', pc := Apply(s, NextStep(s, t)), s.threads[t];
            && s'.threads == s.threads[t := s'.threads[t]] && (s'.lock.None? || s'.lock == Some(t))
            && StepsLeft(s'.threads[t]) < StepsLeft(pc)
            && (if s'.threads[t].Idle? then HasFinished(s', CallOf(pc).value) && s'.lock.None?
                else CallOf(s'.threads[t]) == CallOf(pc))
  {
    hide Usable, Justified, Spaced;
    var s', pc := Apply(s, NextStep(s, t)), s.threads[t];
    assert pc.InLock() <==> s.lock == Some(t);
    assert ThreadOk(s, pc);
    if s'.threads[t].Idle? {
      assert s'.finished[|s'.finished| - 1] in s'.finished;
    }
  }

  /** A thread that has the lock or finds it free can finish its call on its own. */
  lemma FinishAlone(s: State, t: nat) returns (steps: seq<Step>)
    requires Inv(s) && t < |s.threads| && !s.threads[t].Idle? && (s.lock.None? || s.lock == Some(t))
    ensures Legal(s, steps)
    ensures var s' := Exec(s, steps);
            && Inv(s') && s'.lock.None? && s'.threads == s.threads[t := Idle]
            && HasFinished(s', CallOf(s.threads[t]).value)
    decreases StepsLeft(s.threads[t])
  {
    hide Apply, Inv, HasFinished, Legal, Exec;
    NextStepProgresses(s, t);
    StepKeepsInv(s, NextStep(s, t));
    var s1 := Apply(s, NextStep(s, t));
    OneStep(s, NextStep(s, t));
    if s1.threads[t].Idle? {
      steps := [NextStep(s, t)];
    } else {
      var rest := FinishAlone(s1, t);
      ExecConcat(s, [NextStep(s, t)], rest);
      steps := [NextStep(s, t)] + rest;
    }
  }

  /** From every state that any interleaving can reach, every call that was started can be finished by some legal
      continuation: the thread that holds the lock, if there is one, can finish first. */
  lemma EveryCallCanFinish(n: nat, steps: seq<Step>, t: nat) returns (more: seq<Step>)
    requires Legal(Init(n), steps) && t < |Exec(Init(n), steps).threads|
    requires !Exec(Init(n), steps).threads[t].Idle?
    ensures Legal(Init(n), steps + more)
    ensures HasFinished(Exec(Init(n), steps + more), CallOf(Exec(Init(n), steps).threads[t]).value)
  {
    var s := Exec(Init(n), steps);
    RunsKeepInv(Init(n), steps);
    if s.lock.None? || s.lock == Some(t) {
      more := FinishAlone(s, t);
    } else {
      var u := s.lock.value;
      assert s.threads[u].InLock() <==> s.lock == Some(u);
      var first := FinishAlone(s, u);
      var second := FinishAlone(Exec(s, first), t);
      ExecConcat(s, first, second);
      more := first + second;
    }
    ExecConcat(Init(n), steps, more);
  }

  /** What one finished call leaves behind, threads and lock as before. */
  function AfterCall(s: State, cached: Option<Token>, exchanges: seq<Exchange>, o: Outcome): State {
    s.(calls := s.calls + 1, cached := cached, exchanges := exchanges,
       finished := s.finished + [Finished(s.calls, o)])
  }

  /** A waiting thread takes the lock and reads the cache and the clock. */
  lemma LockSteps(s: State, t: nat, call: nat, lockedNow: real)
    requires t < |s.threads| && s.threads[t] == Waiting(call) && s.lock.None?
    ensures var steps := [Acquire(t), ReadCache(t), Recheck(t, lockedNow)];
            Legal(s, steps)
            && Exec(s, steps)
               == s.(lock := Some(t), threads := s.threads[t :=
                       if Usable(s.cached, lockedNow)
                       then Releasing(call, Returned(s.cached.value, Rechecked(lockedNow)))
                       else Exchanging(call, lockedNow)])
  {
    hide Exec, Legal;
    var s1 := Apply(s, Acquire(t));
    var s2 := Apply(s1, ReadCache(t));
    TwoSteps(s, Acquire(t), ReadCache(t));
    OneStep(s2, Recheck(t, lockedNow));
    ExecConcat(s, [Acquire(t), ReadCache(t)], [Recheck(t, lockedNow)]);
    assert [Acquire(t), ReadCache(t)] + [Recheck(t, lockedNow)] == [Acquire(t), ReadCache(t), Recheck(t, lockedNow)];
  }

  function ExchangeSteps(t: nat, exchange: Option<Token>): seq<Step> {
    if exchange.None? then [ExchangeFails(t)] else [ExchangeOk(t, exchange.value), ReadBack(t)]
  }

  /** An exchange, successful or not. */
  lemma ExchangeStepsAre(s: State, t: nat, call: nat, lockedNow: real, exchange: Option<Token>)
    requires t < |s.threads| && s.threads[t] == Exchanging(call, lockedNow)
    ensures Legal(s, ExchangeSteps(t, exchange))
            && Exec(s, ExchangeSteps(t, exchange))
               == if exchange.None? then s.(threads := s.threads[t := Releasing(call, Raised)])
                  else s.(threads := s.threads[t := Releasing(call, Returned(exchange.value, Exchanged))],
                          cached := exchange, exchanges := s.exchanges + [Exchange(call, exchange.value, lockedNow)])
  {
    hide Exec, Legal;
    if exchange.None? {
      OneStep(s, ExchangeFails(t));
    } else {
      TwoSteps(s, ExchangeOk(t, exchange.value), ReadBack(t));
    }
  }

  /** The part of an undisturbed call inside the lock. */
  lemma LockedPart(s: State, t: nat, call: nat, lockedNow: real, exchange: Option<Token>)
    requires t < |s.threads| && s.threads[t] == Waiting(call) && s.lock.None?
    ensures var middle := [Acquire(t), ReadCache(t), Recheck(t, lockedNow)];
            var tail := if Usable(s.cached, lockedNow) then [] else ExchangeSteps(t, exchange);
            var steps := middle + tail + [Release(t)];
            Legal(s, steps)
            && Exec(s, steps)
               == if Usable(s.cached, lockedNow)
                  then s.(threads := s.threads[t := Idle],
                          finished := s.finished + [Finished(call, Returned(s.cached.value, Rechecked(lockedNow)))])
                  else if exchange.None?
                  then s.(threads := s.threads[t := Idle], finished := s.finished + [Finished(call, Raised)])
                  else s.(threads := s.threads[t := Idle], cached := exchange,
                          exchanges := s.exchanges + [Exchange(call, exchange.value, lockedNow)],
                          finished := s.finished + [Finished(call, Returned(exchange.value, Exchanged))])
  {
    hide Exec, Legal, Usable, ExchangeSteps;
    var middle := [Acquire(t), ReadCache(t), Recheck(t, lockedNow)];
    LockSteps(s, t, call, lockedNow);
    var s1 := Exec(s, middle);
    if Usable(s.cached, lockedNow) {
      assert middle + [] == middle;
      OneStep(s1, Release(t));
      ExecConcat(s, middle, [Release(t)]);
    } else {
      ExchangeStepsAre(s1, t, call, lockedNow, exchange);
      ExecConcat(s, middle, ExchangeSteps(t, exchange));
      OneStep(Exec(s1, ExchangeSteps(t, exchange)), Release(t));
      ExecConcat(s, middle + ExchangeSteps(t, exchange), [Release(t)]);
    }
  }

  /** The steps of one call that runs without interference. */
  function SoloSteps(cached: Option<Token>, t: nat, now: real, lockedNow: real, exchange: Option<Token>): seq<Step> {
    [ReadClock(t, now), CheckUnlocked(t)] +
    if Usable(cached, now) then []
    else [Acquire(t), ReadCache(t), Recheck(t, lockedNow)]
         + (if Usable(cached, lockedNow) then [] else ExchangeSteps(t, exchange)) + [Release(t)]
  }

  /** A thread that runs alone behaves as the method does: the interleaved steps refine Call. */
  lemma SoloRunIsCall(s: State, t: nat, now: real, lockedNow: real, exchange: Option<Token>)
    requires t < |s.threads| && s.threads[t].Idle? && s.lock.None?
    ensures var steps := SoloSteps(s.cached, t, now, lockedNow, exchange);
            var (cached, o) := Call(s.cached, now, lockedNow, exchange);
            var exchanges := if o.Returned? && o.path.Exchanged?
                             then s.exchanges + [Exchange(s.calls, o.token, lockedNow)] else s.exchanges;
            Legal(s, steps) && Exec(s, steps) == AfterCall(s, cached, exchanges, o)
  {
    hide Exec, Legal, Usable, ExchangeSteps;
    var head := [ReadClock(t, now), CheckUnlocked(t)];
    var s1 := Apply(s, ReadClock(t, now));
    var s2 := Apply(s1, CheckUnlocked(t));
    TwoSteps(s, ReadClock(t, now), CheckUnlocked(t));
    assert s.threads[t := Idle] == s.threads;
    if Usable(s.cached, now) {
      assert head + [] == head;
    } else {
      LockedPart(s2, t, s.calls, lockedNow, exchange);
      var tail := if Usable(s.cached, lockedNow) then [] else ExchangeSteps(t, exchange);
      ExecConcat(s, head, [Acquire(t), ReadCache(t), Recheck(t, lockedNow)] + tail + [Release(t)]);
      assert s2.threads[t := Idle] == s.threads;
    }
  }
}
