/** `Worker.process` (src/app/worker/runner.py): a bounded retry loop around one run of a job. */
module Worker {
  import opened Basics
  import opened JobCodec

  /** What one attempt does: it returns a workflow result, or raises (a timeout raises as well). */
  datatype Attempt = Ran(result: string) | Raises(error: string)

  datatype Status = Succeeded | Failed

  datatype Execution = Execution(
    correlationId: string, status: Status, attempts: nat, result: Option<string>, error: Option<string>)

  /** The outcome of a job, stated by what each attempt does. */
  ghost predicate IsExecution(job: QueuedJob, runs: nat -> Attempt, max: nat, e: Execution) {
    match job
    case MalformedEventJob(_, _) =>
      && e.correlationId == "" && e.status == Failed && e.attempts == 0 && e.result.None? && e.error.Some?
    case EventJob(_, correlationId, _) =>
      && e.correlationId == correlationId
      && 1 <= e.attempts <= max
      && (forall i :: 1 <= i < e.attempts ==> runs(i).Raises?)
      && (if runs(e.attempts).Ran?
          then e.status == Succeeded && e.result == Some(runs(e.attempts).result) && e.error.None?
          else e.status == Failed && e.attempts == max && e.result.None? && e.error == Some(runs(max).error))
  }

  class Worker {
    const maxAttempts: nat

    constructor (maxAttempts: nat)
      requires maxAttempts >= 1
      ensures this.maxAttempts == maxAttempts
    {
      this.maxAttempts := maxAttempts;
    }

    /** Succeeds with the first attempt that returns; fails after `maxAttempts` that raised, with the last
        error. A malformed message fails without an attempt. */
    method Process(job: QueuedJob, runs: nat -> Attempt) returns (e: Execution)
      requires maxAttempts >= 1
      ensures IsExecution(job, runs, maxAttempts, e)
    {
      if job.MalformedEventJob? {
        return Execution("", Failed, 0, None, Some("malformed queue message " + job.deliveryId));
      }
      var attempt := 1;
      while attempt <= maxAttempts
        invariant 1 <= attempt <= maxAttempts
        invariant forall i :: 1 <= i < attempt ==> runs(i).Raises?
        decreases maxAttempts - attempt
      {
        var outcome := runs(attempt);
        if outcome.Raises? {
          if attempt == maxAttempts {
            return Execution(job.correlationId, Failed, attempt, None, Some(outcome.error));
          }
          attempt := attempt + 1;
          continue;
        }
        return Execution(job.correlationId, Succeeded, attempt, Some(outcome.result), None);
      }
      assert false;
    }
  }

  /** The contract leaves no freedom: the attempts alone decide the execution. */
  lemma ExecutionIsUnique(job: QueuedJob, runs: nat -> Attempt, max: nat, e: Execution, e': Execution)
    requires job.EventJob? && IsExecution(job, runs, max, e) && IsExecution(job, runs, max, e')
    ensures e.status == e'.status && e.attempts == e'.attempts
    ensures e.status == Succeeded <==> exists i :: 1 <= i <= max && runs(i).Ran?
  {
    var least := if e.attempts < e'.attempts then e.attempts else e'.attempts;
    assert runs(least).Ran? || runs(least).Raises?;
    if i :| 1 <= i <= max && runs(i).Ran? {
      assert !(i < e.attempts);
    }
  }
}
