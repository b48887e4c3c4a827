/** What `_finish_task_processing` decides about a task that was executed. */
module Decisions {
  import opened SortedSets
  import opened Wrappers
  import opened TaskDb
  import opened Protocol
  import Retry

  /** The retry method that applies to a failed run, if it is to be retried at all: the one a
  RetryException named, else the task's own, else (for a RetryException) the default. Without an
  execution the child died, which counts as a timeout. */
  function ChosenMethod(record: Record, default: Retry.Method, execution: Option<Execution>): Option<Retry.Method> {
    if execution.Some? && execution.value.retry.Some? then
      var named := execution.value.retry.value.retryMethod;
      if named.Some? then named else if record.retryMethod.Some? then record.retryMethod else Some(default)
    else if record.retryMethod.None? then None
    else if record.retryOn.None? then record.retryMethod
    else if ShouldRetryOn(record, if execution.Some? then execution.value.exception else JOB_TIMEOUT)
         then record.retryMethod
    else None
  }

  predicate LogsError(execution: Option<Execution>) {
    execution.None? || execution.value.retry.None? || execution.value.retry.value.logError
  }

  /** The wait before the next run, `None` when there is none. A count of 0 is taken for 1. */
  function NextWait(chosen: Option<Retry.Method>, executions: nat): Option<real> {
    if chosen.None? || chosen.value.Unimportable? then None
    else Retry.Wait(chosen.value, if executions == 0 then 1 else executions)
  }

  function Decide(record: Record, default: Retry.Method, success: bool, execution: Option<Execution>,
                  executions: nat, now: real): Decision
  {
    var wait := NextWait(ChosenMethod(record, default, execution), executions);
    if success then Done
    else if wait.Some? then MoveTo(Scheduled, now + wait.value)
    else if LogsError(execution) then MoveTo(Error, now)
    else Done
  }

  /** The last stored execution, `lindex -1`. */
  function LastExecution(db: Db, id: Id): Option<Execution> {
    var h := db.History(id);
    if h == [] then None else Some(h[|h| - 1])
  }

  // ---- what is decided ---------------------------------------------------------------------------

  /** A successful task is done. */
  lemma SuccessIsDone(record: Record, default: Retry.Method, execution: Option<Execution>, executions: nat, now: real)
    ensures Decide(record, default, true, execution, executions, now) == Done
  {}

  /** A RetryException is always answered by a method: the one it names, else that of the task, else the
  default one. */
  lemma RetryExceptionMethod(record: Record, default: Retry.Method, e: Execution)
    requires e.retry.Some?
    ensures var chosen, named := ChosenMethod(record, default, Some(e)), e.retry.value.retryMethod;
            && (named.Some? ==> chosen == named)
            && (named.None? && record.retryMethod.Some? ==> chosen == record.retryMethod)
            && (named.None? && record.retryMethod.None? ==> chosen == Some(default))
  {}

  /** Any other failure is answered by the method of the task alone: for a task without a list of
  exceptions always, and for one with a list if the exception is on it; a run that left no execution
  counts as a timeout. */
  lemma OtherFailureMethod(record: Record, default: Retry.Method, execution: Option<Execution>)
    requires execution.Some? ==> execution.value.retry.None?
    ensures var chosen := ChosenMethod(record, default, execution);
            && (record.retryMethod.None? ==> chosen == None)
            && (record.retryMethod.Some? && record.retryOn.None? ==> chosen == record.retryMethod)
            && (record.retryMethod.Some? && record.retryOn.Some? ==>
                  var name := if execution.Some? then execution.value.exception
                              else "tasktiger.exceptions:JobTimeoutException";
                  chosen == if name in record.retryOn.value then record.retryMethod else None)
  {}

  /** The failed run is to be retried: its method can be imported and allows one more retry, the number
  of retries being the number of stored executions, and 1 if none is stored. */
  predicate AllowsRetry(chosen: Option<Retry.Method>, executions: nat) {
    && chosen.Some? && !chosen.value.Unimportable?
    && (executions <= chosen.value.maxRetries) && (executions == 0 ==> chosen.value.maxRetries >= 1)
  }

  /** The three outcomes of a failed run, each with its exact condition. */
  lemma FailureOutcomes(record: Record, default: Retry.Method, execution: Option<Execution>, executions: nat, now: real)
    ensures var decision := Decide(record, default, false, execution, executions, now);
            var chosen := ChosenMethod(record, default, execution);
            var silent := execution.Some? && execution.value.retry.Some? && !execution.value.retry.value.logError;
            && (decision.MoveTo? && decision.state.Scheduled? <==> AllowsRetry(chosen, executions))
            && (AllowsRetry(chosen, executions) ==>
                  decision.when == now + Retry.WaitLength(chosen.value, if executions == 0 then 1 else executions))
            && (decision == MoveTo(Error, now) <==> !AllowsRetry(chosen, executions) && !silent)
            && (decision == Done <==> !AllowsRetry(chosen, executions) && silent)
  {}
}
