/** `Worker.run_until_empty` (src/app/worker/runner.py) over the durable queue: dequeue, process, acknowledge. */
module WorkerLoop {
  import opened Basics
  import opened JobCodec
  import opened JobQueue
  import opened Worker
  import opened Events

  /** From `start` on, exactly the messages `ids` were handed out and acknowledged, each once. */
  ghost predicate Handled(start: Stream, s: Stream, ids: seq<nat>) {
    && s.Valid() && s.entries == start.entries && start.delivered <= s.delivered
    && NoDuplicates(ids)
    && (forall id <- ids :: id !in start.acked)
    && s.acked == start.acked + (set id <- ids)
    && (forall id :: start.delivered < id <= s.delivered ==> id in ids)
  }

  /** The messages were handled in stream order. */
  ghost predicate InStreamOrder(start: Stream, s: Stream, ids: seq<nat>) {
    && |ids| == s.delivered - start.delivered
    && forall i :: 0 <= i < |ids| ==> ids[i] == start.delivered + 1 + i
  }

  /** Redis calls left at most: reading an entry costs two, claiming a pending one costs one. */
  function Remaining(s: Stream): int {
    2 * (|s.entries| - s.delivered) + |s.pending|
  }

  lemma EmptyScan(pending: seq<nat>, i: nat, attempts: nat)
    requires i <= |pending|
    ensures ScanPending(pending, {}, i, attempts).1.None?
    decreases attempts
  {
  }

  lemma {:induction false} RemovedCount(ids: seq<nat>, id: nat)
    requires forall i, j :: 0 <= i < j < |ids| ==> ids[i] < ids[j]
    ensures |Remove(ids, id)| == |ids| - if id in ids then 1 else 0
  {
    if ids != [] {
      RemovedCount(ids[1..], id);
    }
  }

  /** One dequeue followed by its acknowledgement. */
  lemma HandledOneMore(start: Stream, s: Stream, cursor: nat, idle: set<nat>, ids: seq<nat>)
    requires Handled(start, s, ids) && Dequeued(s, cursor, idle).2.Some?
    ensures var (s', _, id) := Dequeued(s, cursor, idle);
            && Handled(start, XAck(s', id.value), ids + [id.value])
            && Remaining(XAck(s', id.value)) < Remaining(s)
            && 0 <= Remaining(s)
  {
    hide XAutoClaim, Remove;
    var (s', _, id) := Dequeued(s, cursor, idle);
    DequeuedIsPending(s, cursor, idle);
    AckKeepsValid(s', id.value);
    RemovedCount(s'.pending, id.value);
  }

  lemma OrderKept(start: Stream, s: Stream, cursor: nat, ids: seq<nat>)
    requires InStreamOrder(start, s, ids) && Dequeued(s, cursor, {}).2.Some?
    ensures var (s', _, id) := Dequeued(s, cursor, {});
            InStreamOrder(start, XAck(s', id.value), ids + [id.value])
  {
    EmptyScan(s.pending, Below(s.pending, cursor), CLAIM_ATTEMPTS);
  }

  /** The n-th result is what processing the n-th message gives. */
  ghost predicate Processed(
    iso: IsoFormat, entries: seq<Payload>, ids: seq<nat>, runs: nat -> (nat -> Attempt), max: nat,
    results: seq<Execution>)
  {
    && |results| == |ids|
    && forall n :: 0 <= n < |ids| ==> IsExecution(JobAt(iso, entries, ids[n]), runs(n), max, results[n])
  }

  /** The n-th result is the execution of the event that was enqueued as the n-th message handled. */
  lemma ResultsOfEvents(
    iso: IsoFormat, entries: seq<Payload>, ids: seq<nat>, runs: nat -> (nat -> Attempt), max: nat,
    results: seq<Execution>, n: nat, event: Event, correlationId: string)
    requires Processed(iso, entries, ids, runs, max, results) && n < |ids|
    requires iso.Faithful() && Labelled(event) && Stored(iso, entries, ids[n], event, correlationId)
    ensures IsExecution(EventJob(event, correlationId, DeliveryId(ids[n])), runs(n), max, results[n])
  {
    hide EncodeJob, Labelled;
    JobOfStored(iso, entries, ids[n], event, correlationId);
  }

  lemma AllResultsOfEvents(
    iso: IsoFormat, entries: seq<Payload>, ids: seq<nat>, runs: nat -> (nat -> Attempt), max: nat,
    results: seq<Execution>)
    requires Processed(iso, entries, ids, runs, max, results)
    ensures iso.Faithful() ==>
              forall n: nat, event: Event, correlationId: string ::
                n < |ids| && Labelled(event) && Stored(iso, entries, ids[n], event, correlationId) ==>
                  IsExecution(EventJob(event, correlationId, DeliveryId(ids[n])), runs(n), max, results[n])
  {
    hide IsExecution, Stored, Labelled;
    if iso.Faithful() {
      forall n: nat, event: Event, correlationId: string
        | n < |ids| && Labelled(event) && Stored(iso, entries, ids[n], event, correlationId)
        ensures |ids| == |results|
             && IsExecution(EventJob(event, correlationId, DeliveryId(ids[n])), runs(n), max, results[n])
      {
        ResultsOfEvents(iso, entries, ids, runs, max, results, n, event, correlationId);
      }
    }
  }

  lemma ProcessedOneMore(
    iso: IsoFormat, entries: seq<Payload>, ids: seq<nat>, runs: nat -> (nat -> Attempt), max: nat,
    results: seq<Execution>, id: nat, e: Execution)
    requires Processed(iso, entries, ids, runs, max, results)
    requires IsExecution(JobAt(iso, entries, id), runs(|ids|), max, e)
    ensures Processed(iso, entries, ids + [id], runs, max, results + [e])
  {
  }

  /** Drains the queue. `idleAt(n)` is the set of entries idle at the n-th dequeue, `runs(n)(i)` what attempt
      `i` on the n-th message does. `ids` names the messages in the order they were handled. */
  method RunUntilEmpty(
    worker: Worker, queue: RedisStreamsJobQueue, idleAt: nat -> set<nat>, runs: nat -> (nat -> Attempt))
    returns (results: seq<Execution>, ghost ids: seq<nat>)
    requires worker.maxAttempts >= 1 && queue.redis.stream.Valid()
    modifies queue, queue.redis
    // exactly the handled messages were acknowledged, each once, and nothing stays undelivered
    ensures Handled(old(queue.redis.stream), queue.redis.stream, ids)
    ensures queue.redis.stream.delivered == |queue.redis.stream.entries|
    // one result per message handled, each what processing that message gives
    ensures Processed(queue.iso, queue.redis.stream.entries, ids, runs, worker.maxAttempts, results)
    // so for every enqueued event that was handled, its own execution
    ensures queue.iso.Faithful() ==>
              forall n: nat, event: Event, correlationId: string ::
                n < |ids| && Labelled(event)
                && Stored(queue.iso, queue.redis.stream.entries, ids[n], event, correlationId) ==>
                  IsExecution(EventJob(event, correlationId, DeliveryId(ids[n])), runs(n), worker.maxAttempts, results[n])
    // without idle entries to claim, the order is the stream's
    ensures (forall n :: idleAt(n) == {}) ==> InStreamOrder(old(queue.redis.stream), queue.redis.stream, ids)
  {
    hide IsExecution, Stored, Labelled, JobAt, Dequeued, Remaining, DeliveryId;
    results, ids := [], [];
    var redis := queue.redis;
    ghost var start := redis.stream;
    while true
      invariant Handled(start, redis.stream, ids)
      invariant (forall n :: idleAt(n) == {}) ==> InStreamOrder(start, redis.stream, ids)
      invariant Processed(queue.iso, start.entries, ids, runs, worker.maxAttempts, results)
      decreases Remaining(redis.stream)
    {
      ghost var before, cursor := redis.stream, queue.claimStartId;
      var idle := idleAt(|results|);
      DequeuedIsPending(before, cursor, idle);
      var job, id := queue.Dequeue(idle);
      if job.None? {
        AllResultsOfEvents(queue.iso, redis.stream.entries, ids, runs, worker.maxAttempts, results);
        return;
      }
      HandledOneMore(start, before, cursor, idle, ids);
      if idle == {} && InStreamOrder(start, before, ids) {
        OrderKept(start, before, cursor, ids);
      }
      var execution := worker.Process(job.value, runs(|results|));
      var raised := queue.Ack(job.value);
      assert !raised;
      ProcessedOneMore(queue.iso, start.entries, ids, runs, worker.maxAttempts, results, id.value, execution);
      results := results + [execution];
      ids := ids + [id.value];
    }
  }
}
