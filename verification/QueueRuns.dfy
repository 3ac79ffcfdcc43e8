/** Every run of any number of workers over one stream, with crashes at any point: nothing is lost, nothing is
    acknowledged before a terminal result. */
module QueueRuns {
  import opened Basics
  import opened JobCodec
  import opened JobQueue
  import ClaimSweep

  /** What a worker is doing; between the two Redis calls of `dequeue` it is Reading. */
  datatype WorkerState = Free | Reading | Holding(id: nat) | Finished(id: nat)

  datatype System = System(
    stream: Stream, workers: seq<WorkerState>, cursors: seq<nat>, finished: set<nat>)
  {
    ghost predicate Shaped() {
      stream.Valid() && |cursors| == |workers|
    }
  }

  datatype Step =
    | Enqueue(payload: Payload)
    | Claim(w: nat, idle: set<nat>)
    | Read(w: nat)
    | Process(w: nat)
    | Ack(w: nat)
    | Crash(w: nat)

  predicate Enabled(s: System, step: Step)
    requires |s.cursors| == |s.workers|
  {
    match step
    case Enqueue(_) => true
    case Claim(w, _) => w < |s.workers| && s.workers[w].Free?
    case Read(w) => w < |s.workers| && s.workers[w].Reading?
    case Process(w) => w < |s.workers| && s.workers[w].Holding?
    case Ack(w) => w < |s.workers| && s.workers[w].Finished?
    case Crash(w) => w < |s.workers|
  }

  function Apply(s: System, step: Step): (r: System)
    requires |s.cursors| == |s.workers| && Enabled(s, step)
    ensures |r.workers| == |s.workers| && |r.cursors| == |r.workers|
  {
    match step
    case Enqueue(payload) => s.(stream := XAdd(s.stream, payload))
    case Claim(w, idle) =>
      var (next, claimed) := XAutoClaim(s.stream, idle, s.cursors[w]);
      s.(cursors := s.cursors[w := next],
         workers := s.workers[w := if claimed.Some? then Holding(claimed.value) else Reading])
    case Read(w) =>
      var (stream, id) := XReadGroup(s.stream);
      s.(stream := stream, workers := s.workers[w := if id.Some? then Holding(id.value) else Free])
    case Process(w) =>
      s.(workers := s.workers[w := Finished(s.workers[w].id)], finished := s.finished + {s.workers[w].id})
    case Ack(w) => s.(stream := XAck(s.stream, s.workers[w].id), workers := s.workers[w := Free])
    case Crash(w) => s.(workers := s.workers[w := Free], cursors := s.cursors[w := 0])
  }

  function Init(workers: nat): System {
    System(Stream([], 0, [], {}), seq(workers, _ => Free), seq(workers, _ => 0), {})
  }

  predicate Legal(s: System, steps: seq<Step>)
    requires |s.cursors| == |s.workers|
    decreases steps
  {
    steps == [] || (Enabled(s, steps[0]) && Legal(Apply(s, steps[0]), steps[1..]))
  }

  function Exec(s: System, steps: seq<Step>): (r: System)
    requires |s.cursors| == |s.workers| && Legal(s, steps)
    ensures |r.workers| == |s.workers| && |r.cursors| == |r.workers|
    decreases steps
  {
    if steps == [] then s else Exec(Apply(s, steps[0]), steps[1..])
  }

  ghost predicate WorkerOk(s: System, w: WorkerState) {
    match w
    case Holding(id) => 1 <= id <= s.stream.delivered
    case Finished(id) => 1 <= id <= s.stream.delivered && id in s.finished
    case _ => true
  }

  ghost predicate Inv(s: System) {
    && s.Shaped()
    && (forall i :: 0 <= i < |s.workers| ==> WorkerOk(s, s.workers[i]))
    && s.stream.acked <= s.finished
    && (forall id <- s.finished :: 1 <= id <= s.stream.delivered)
  }

  lemma StepKeepsInv(s: System, step: Step)
    requires Inv(s) && Enabled(s, step)
    ensures Inv(Apply(s, step))
    ensures s.stream.entries <= Apply(s, step).stream.entries
    ensures s.stream.acked <= Apply(s, step).stream.acked && s.finished <= Apply(s, step).finished
  {
    match step
    case Claim(w, idle) =>
      ClaimIsPending(s.stream, idle, Below(s.stream.pending, s.cursors[w]), CLAIM_ATTEMPTS);
    case Read(w) => ReadKeepsValid(s.stream);
    case Process(w) => assert WorkerOk(s, s.workers[w]);
    case Ack(w) =>
      assert WorkerOk(s, s.workers[w]);
      AckKeepsValid(s.stream, s.workers[w].id);
    case Enqueue(_) =>
    case Crash(_) =>
  }

  /** Exactly one of undelivered, pending and acknowledged. */
  predicate InOnePlace(s: Stream, id: nat) {
    var undelivered, pending, acked := id > s.delivered, id in s.pending, id in s.acked;
    && (undelivered || pending || acked)
    && !(undelivered && pending) && !(undelivered && acked) && !(pending && acked)
  }

  /** Conservation over every run: each enqueued message is in exactly one of undelivered, pending and
      acknowledged, and is acknowledged only after some worker's `process` returned on it. */
  lemma {:induction false} Conservation(s: System, steps: seq<Step>, id: nat)
    requires Inv(s) && Legal(s, steps)
    ensures var r := Exec(s, steps);
            && Inv(r)
            && s.stream.entries <= r.stream.entries && s.stream.acked <= r.stream.acked
            && (1 <= id <= |r.stream.entries| ==> InOnePlace(r.stream, id))
            && (id in r.stream.acked ==> id in r.finished)
    decreases steps
  {
    if steps != [] {
      StepKeepsInv(s, steps[0]);
      Conservation(Apply(s, steps[0]), steps[1..], id);
    }
  }

  lemma InitIsValid(workers: nat)
    ensures Inv(Init(workers))
  {
  }

  /** Conservation of every run from the start. */
  lemma ConservationFromStart(workers: nat, steps: seq<Step>, id: nat)
    requires Legal(Init(workers), steps)
    ensures var s := Exec(Init(workers), steps);
            && Inv(s) && (1 <= id <= |s.stream.entries| ==> InOnePlace(s.stream, id))
            && (id in s.stream.acked ==> id in s.finished)
  {
    InitIsValid(workers);
    Conservation(Init(workers), steps, id);
  }

  /** One step and then others. */
  lemma Then(s: System, step: Step, rest: seq<Step>)
    requires |s.cursors| == |s.workers| && Enabled(s, step) && Legal(Apply(s, step), rest)
    ensures Legal(s, [step] + rest) && Exec(s, [step] + rest) == Exec(Apply(s, step), rest)
  {
    hide Apply;
    assert ([step] + rest)[1..] == rest;
  }

  /** A held message can be processed and acknowledged. */
  lemma HeldIsAcked(s: System, w: nat, id: nat)
    requires Inv(s) && w < |s.workers| && s.workers[w] == Holding(id)
    ensures Legal(s, [Process(w), Ack(w)])
    ensures var s' := Exec(s, [Process(w), Ack(w)]);
            Inv(s') && s'.cursors == s.cursors && s'.workers == s.workers[w := Free]
            && s'.stream == XAck(s.stream, id)
    ensures id in s.stream.pending ==> id in Exec(s, [Process(w), Ack(w)]).stream.acked
  {
    var s1 := Apply(s, Process(w));
    var s2 := Apply(s1, Ack(w));
    StepKeepsInv(s, Process(w));
    StepKeepsInv(s1, Ack(w));
    assert s2.workers == s.workers[w := Free];
    TwoSteps(s, Process(w), Ack(w));
  }

  lemma TwoSteps(s: System, a: Step, b: Step)
    requires |s.cursors| == |s.workers| && Enabled(s, a) && Enabled(Apply(s, a), b)
    ensures Legal(s, [a, b]) && Exec(s, [a, b]) == Apply(Apply(s, a), b)
  {
    hide Apply, Enabled;
    var s1 := Apply(s, a);
    assert [a, b][1..] == [b] && [b][1..] == [];
    assert Legal(Apply(s1, b), []);
    assert Legal(s1, [b]) && Exec(s1, [b]) == Apply(s1, b);
  }

  /** Processing and acknowledging what is held, and then others. */
  lemma HeldThen(s: System, w: nat, id: nat, rest: seq<Step>)
    requires Inv(s) && w < |s.workers| && s.workers[w] == Holding(id)
    requires Legal(s, [Process(w), Ack(w)]) && Legal(Exec(s, [Process(w), Ack(w)]), rest)
    ensures Legal(s, [Process(w), Ack(w)] + rest)
    ensures Exec(s, [Process(w), Ack(w)] + rest) == Exec(Exec(s, [Process(w), Ack(w)]), rest)
  {
    var s1 := Apply(s, Process(w));
    TwoSteps(s, Process(w), Ack(w));
    hide Apply, Legal, Exec, Inv;
    Then(s1, Ack(w), rest);
    Then(s, Process(w), [Ack(w)] + rest);
    assert [Process(w)] + ([Ack(w)] + rest) == [Process(w), Ack(w)] + rest;
  }

  /** The two calls of one dequeue by a free worker. */
  lemma DequeueSteps(s: System, w: nat, idle: set<nat>)
    requires Inv(s) && w < |s.workers| && s.workers[w].Free?
    ensures var s1 := Apply(s, Claim(w, idle));
            var (stream, next, id) := Dequeued(s.stream, s.cursors[w], idle);
            && Inv(s1)
            && (s1.workers[w].Holding? ==> id == Some(s1.workers[w].id) && s1.workers[w].id in idle)
            && (!s1.workers[w].Holding? ==>
                  && s1.workers[w].Reading?
                  && var s2 := Apply(s1, Read(w));
                     && Inv(s2) && s2.stream == stream && s2.cursors == s.cursors[w := next]
                     && s2.workers[w] == (if id.Some? then Holding(id.value) else Free)
                     && (id.Some? ==> id.value == s.stream.delivered + 1))
  {
    var s1 := Apply(s, Claim(w, idle));
    StepKeepsInv(s, Claim(w, idle));
    ClaimIsPending(s.stream, idle, Below(s.stream.pending, s.cursors[w]), CLAIM_ATTEMPTS);
    if s1.workers[w].Reading? {
      StepKeepsInv(s1, Read(w));
    }
  }

  /** A pending message that is idle is reached by a free worker: each dequeue that does not hand it out shortens
      the sweep, whatever new message it reads instead. */
  lemma PendingIsReached(s: System, w: nat, id: nat) returns (steps: seq<Step>)
    requires Inv(s) && w < |s.workers| && s.workers[w].Free? && id in s.stream.pending
    ensures Legal(s, steps)
    ensures var s' := Exec(s, steps); Inv(s') && w < |s'.workers| && s'.workers[w] == Holding(id)
    ensures id in Exec(s, steps).stream.pending
    decreases ClaimSweep.Distance(s.stream.pending, s.cursors[w], id)
  {
    var s1 := Apply(s, Claim(w, {id}));
    DequeueSteps(s, w, {id});
    if s1.workers[w].Holding? {
      steps := [Claim(w, {id})];
      Then(s, Claim(w, {id}), []);
      assert [Claim(w, {id})] + [] == steps;
      return;
    }
    var s2 := Apply(s1, Read(w));
    Approaches(s, w, id);
    hide Apply, Inv, ClaimSweep.Distance;
    var rest;
    if s2.workers[w].Free? {
      rest := PendingIsReached(s2, w, id);
    } else {
      HeldIsAcked(s2, w, s2.workers[w].id);
      var more := PendingIsReached(Exec(s2, [Process(w), Ack(w)]), w, id);
      HeldThen(s2, w, s2.workers[w].id, more);
      rest := [Process(w), Ack(w)] + more;
    }
    Then(s1, Read(w), rest);
    Then(s, Claim(w, {id}), [Read(w)] + rest);
    steps := [Claim(w, {id})] + ([Read(w)] + rest);
  }

  /** The measure: after a dequeue that reads, and after acknowledging what it read. */
  lemma Approaches(s: System, w: nat, id: nat)
    requires Inv(s) && w < |s.workers| && s.workers[w].Free? && id in s.stream.pending
    requires Apply(s, Claim(w, {id})).workers[w].Reading?
    ensures var s2 := Apply(Apply(s, Claim(w, {id})), Read(w));
            && Inv(s2) && w < |s2.workers| && id in s2.stream.pending
            && 0 <= ClaimSweep.Distance(s2.stream.pending, s2.cursors[w], id)
            && ClaimSweep.Distance(s2.stream.pending, s2.cursors[w], id)
               < ClaimSweep.Distance(s.stream.pending, s.cursors[w], id)
            && (s2.workers[w].Holding? ==>
                  var s3 := XAck(s2.stream, s2.workers[w].id);
                  && s2.workers[w].id in s2.stream.pending && id in s3.pending
                  && 0 <= ClaimSweep.Distance(s3.pending, s2.cursors[w], id)
                       <= ClaimSweep.Distance(s2.stream.pending, s2.cursors[w], id))
  {
    var s2 := Apply(Apply(s, Claim(w, {id})), Read(w));
    DequeueSteps(s, w, {id});
    DequeuedIsPending(s.stream, s.cursors[w], {id});
    ClaimSweep.StillPending(s.stream, s.cursors[w], {id}, id);
    var k :| 0 <= k < |s.stream.pending| && s.stream.pending[k] == id;
    ClaimSweep.DequeueApproaches(s.stream, s.cursors[w], {id}, k);
    ClaimSweep.DistanceBound(s2.stream.pending, s2.cursors[w], id);
    if s2.workers[w].Holding? {
      ClaimSweep.AckApproaches(s2.stream, s2.cursors[w], s2.workers[w].id, id);
      ClaimSweep.DistanceBound(XAck(s2.stream, s2.workers[w].id).pending, s2.cursors[w], id);
    }
  }

  /** A message nobody has read yet is reached by a free worker that reads what comes before it. */
  lemma UnreadIsReached(s: System, w: nat, id: nat) returns (steps: seq<Step>)
    requires Inv(s) && w < |s.workers| && s.workers[w].Free? && s.stream.delivered < id <= |s.stream.entries|
    ensures Legal(s, steps)
    ensures var s' := Exec(s, steps); Inv(s') && w < |s'.workers| && s'.workers[w] == Holding(id)
    ensures id in Exec(s, steps).stream.pending
    decreases id - s.stream.delivered
  {
    var s1 := Apply(s, Claim(w, {}));
    DequeueSteps(s, w, {});
    var s2 := Apply(s1, Read(w));
    DequeuedIsPending(s.stream, s.cursors[w], {});
    var rest := [];
    if s2.workers[w] != Holding(id) {
      HeldIsAcked(s2, w, s2.workers[w].id);
      var more := UnreadIsReached(Exec(s2, [Process(w), Ack(w)]), w, id);
      HeldThen(s2, w, s2.workers[w].id, more);
      rest := [Process(w), Ack(w)] + more;
    }
    Then(s1, Read(w), rest);
    Then(s, Claim(w, {}), [Read(w)] + rest);
    steps := [Claim(w, {})] + ([Read(w)] + rest);
  }

  /** Nothing is lost: from every reachable state, wherever the workers have crashed or stand, any worker can be
      restarted and by legal steps come to hold any message that is not acknowledged, and then acknowledge it.
      Only that message needs to be idle. */
  lemma UnackedIsRecoverable(s: System, w: nat, id: nat) returns (steps: seq<Step>)
    requires Inv(s) && w < |s.workers| && 1 <= id <= |s.stream.entries| && id !in s.stream.acked
    ensures Legal(s, steps)
    ensures var s' := Exec(s, steps);
            && Inv(s') && w < |s'.workers| && s'.workers[w] == Holding(id)
            && Legal(s', [Process(w), Ack(w)]) && id in Exec(s', [Process(w), Ack(w)]).stream.acked
  {
    var s1 := Apply(s, Crash(w));
    StepKeepsInv(s, Crash(w));
    var rest;
    if id in s.stream.pending {
      rest := PendingIsReached(s1, w, id);
    } else {
      rest := UnreadIsReached(s1, w, id);
    }
    Then(s, Crash(w), rest);
    steps := [Crash(w)] + rest;
    HeldIsAcked(Exec(s, steps), w, id);
  }

  /** Delivery is at least once, not exactly once: when a claim takes over a message whose holder is still at
      work, both process it and both acknowledge; the second acknowledgement changes nothing. */
  lemma TakenOverIsProcessedTwice(s: System, w: nat, v: nat, id: nat)
    requires Inv(s) && w < |s.workers| && v < |s.workers| && w != v
    requires s.workers[w] == Holding(id) && s.workers[v].Free? && s.cursors[v] == id && id in s.stream.pending
    ensures var s1 := Apply(s, Claim(v, {id}));
            && s1.workers[w] == s1.workers[v] == Holding(id)
            && var s2 := Apply(Apply(s1, Process(w)), Process(v));
            && s2.workers[w] == s2.workers[v] == Finished(id)
            && var s3 := Apply(s2, Ack(w));
            && id in s3.stream.acked && s3.workers[v] == Finished(id)
            && Apply(s3, Ack(v)).stream == s3.stream
  {
    var k :| 0 <= k < |s.stream.pending| && s.stream.pending[k] == id;
    BelowAt(s.stream.pending, k);
    AckKeepsValid(s.stream, id);
  }
}
