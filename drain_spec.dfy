/** The meaning of one drain turn of an actor's work queue
    (ActorWorkItemGroup.Execute), stated on values: how many queued tasks a
    turn runs and what it logs, given the clock readings it takes and how
    each task's execution goes.  The clock is the sequence of readings of
    the millisecond tick counter: reading 0 is taken when the loop starts
    and reading i + 1 right after the i-th task (counting from 0) finishes. */
module DrainSpec {
  import opened Common

  /** A queued continuation, identified by its task id. */
  type Task = nat

  /** How one attempt to run a task ends: it ran, the runtime refused to run
      it (TryExecuteTask returned false), or an exception escaped. */
  datatype TaskAttempt = Executed | NotExecuted | Threw

  /** Does the turn end right after running task `t`, the i-th of the turn?
      It ends when an exception escaped the task, or when a positive
      throughput quota has been used up since the loop started. */
  predicate EndsTurnAfter(t: Task, i: nat, clock: nat -> int, quotaMs: int, attempt: Task -> TaskAttempt)
  {
    attempt(t) == Threw || (quotaMs > 0 && clock(i + 1) - clock(0) >= quotaMs)
  }

  /** The number of tasks a turn runs, given that tasks q[..i] have run
      without ending it. */
  function TurnLengthFrom(q: seq<Task>, i: nat, clock: nat -> int, quotaMs: int, attempt: Task -> TaskAttempt): (n: nat)
    requires i <= |q|
    ensures i <= n <= |q|
    ensures i < |q| ==> i < n
    decreases |q| - i
  {
    if i == |q| then i
    else if EndsTurnAfter(q[i], i, clock, quotaMs, attempt) then i + 1
    else TurnLengthFrom(q, i + 1, clock, quotaMs, attempt)
  }

  /** The number of tasks one turn takes from the front of queue q. */
  function TurnLength(q: seq<Task>, clock: nat -> int, quotaMs: int, attempt: Task -> TaskAttempt): (n: nat)
    ensures n <= |q|
    ensures q != [] ==> n >= 1
  {
    TurnLengthFrom(q, 0, clock, quotaMs, attempt)
  }

  /** What running the i-th task of a turn writes to the log: the
      scheduler's "not successful" warning, the slow-task warning when the
      task took longer than the threshold, and the error of an escaped
      exception, in that order. */
  function TaskLog(t: Task, i: nat, clock: nat -> int, warningMs: int, attempt: Task -> TaskAttempt): seq<LogEntry>
  {
    TaskRunLog(t, i, clock, warningMs, attempt)
    + (if attempt(t) == Threw then [LogEntry(Error, DrainLoopFailed(t))] else [])
  }

  /** The part of TaskLog written inside the loop body (its try/finally). */
  function TaskRunLog(t: Task, i: nat, clock: nat -> int, warningMs: int, attempt: Task -> TaskAttempt): seq<LogEntry>
  {
    var duration := clock(i + 1) - clock(i);
    (if attempt(t) == NotExecuted then [LogEntry(Warning, ExecNotSuccessful(t))] else [])
    + (if duration > warningMs then [LogEntry(Warning, SlowTask(duration, warningMs))] else [])
  }

  /** The log written by running the first n tasks of q in one turn. */
  function TurnLog(q: seq<Task>, n: nat, clock: nat -> int, warningMs: int, attempt: Task -> TaskAttempt): seq<LogEntry>
    requires n <= |q|
  {
    if n == 0 then []
    else TurnLog(q, n - 1, clock, warningMs, attempt) + TaskLog(q[n - 1], n - 1, clock, warningMs, attempt)
  }

  /** A turn stops for a reason: every task but the last ran without ending
      the turn, and the last one either ended it or emptied the queue. */
  lemma {:induction false} TurnLengthExplained(q: seq<Task>, i: nat, clock: nat -> int, quotaMs: int, attempt: Task -> TaskAttempt)
    requires i <= |q|
    ensures var n := TurnLengthFrom(q, i, clock, quotaMs, attempt);
      && (forall j :: i <= j < n - 1 ==> !EndsTurnAfter(q[j], j, clock, quotaMs, attempt))
      && (n < |q| ==> EndsTurnAfter(q[n - 1], n - 1, clock, quotaMs, attempt))
    decreases |q| - i
  {
    if i < |q| && !EndsTurnAfter(q[i], i, clock, quotaMs, attempt) {
      TurnLengthExplained(q, i + 1, clock, quotaMs, attempt);
    }
  }

  /** A turn in which no task ends it runs the whole queue. */
  lemma {:induction false} TurnDrainsAllWithoutStop(q: seq<Task>, i: nat, clock: nat -> int, quotaMs: int, attempt: Task -> TaskAttempt)
    requires i <= |q|
    requires forall j :: i <= j < |q| ==> !EndsTurnAfter(q[j], j, clock, quotaMs, attempt)
    ensures TurnLengthFrom(q, i, clock, quotaMs, attempt) == |q|
    decreases |q| - i
  {
    if i < |q| {
      TurnDrainsAllWithoutStop(q, i + 1, clock, quotaMs, attempt);
    }
  }

  /** With no throughput quota (quota <= 0) a turn only ends on an escaped
      exception or an empty queue: it never stops on time. */
  lemma UnlimitedQuotaDrainsAll(q: seq<Task>, clock: nat -> int, quotaMs: int, attempt: Task -> TaskAttempt)
    requires quotaMs <= 0
    requires forall j :: 0 <= j < |q| ==> attempt(q[j]) != Threw
    ensures TurnLength(q, clock, quotaMs, attempt) == |q|
  {
    TurnDrainsAllWithoutStop(q, 0, clock, quotaMs, attempt);
  }

  /** Quota fairness: once a positive quota has elapsed after the j-th task,
      the turn yields; it never runs a task beyond that one. */
  lemma {:induction false} TurnYieldsOnceQuotaElapsed(q: seq<Task>, i: nat, j: nat, clock: nat -> int, quotaMs: int, attempt: Task -> TaskAttempt)
    requires i <= j < |q|
    requires quotaMs > 0 && clock(j + 1) - clock(0) >= quotaMs
    ensures TurnLengthFrom(q, i, clock, quotaMs, attempt) <= j + 1
    decreases |q| - i
  {
    if i < j && !EndsTurnAfter(q[i], i, clock, quotaMs, attempt) {
      TurnYieldsOnceQuotaElapsed(q, i + 1, j, clock, quotaMs, attempt);
    }
  }

  /** The queue after k iterations of a drain loop in which running task t
      enqueues spawn(t) on the same group.  The loop runs outside the
      group's lock, so these enqueues join the turn that is running: each
      iteration takes the head and appends what it enqueued. */
  function QueueAfterRuns(q: seq<Task>, spawn: Task -> seq<Task>, k: nat): (r: seq<Task>)
    ensures q == [] ==> r == []
    decreases k
  {
    if k == 0 || q == [] then q
    else QueueAfterRuns(q[1..] + spawn(q[0]), spawn, k - 1)
  }

  /** A continuation that always enqueues a follow-up keeps the queue from
      ever emptying: after any number of iterations a task is still there
      for the next dequeue.  With no throughput quota (quota <= 0) and no
      escaped exception, the loop's only other way out, the drain loop then
      never ends; a positive quota is what makes such a turn yield. */
  lemma {:induction false} SelfRequeueNeverEmpties(q: seq<Task>, spawn: Task -> seq<Task>, k: nat)
    requires q != []
    requires forall t :: spawn(t) != []
    ensures QueueAfterRuns(q, spawn, k) != []
    ensures |QueueAfterRuns(q, spawn, k)| >= |q|
    decreases k
  {
    if k > 0 {
      SelfRequeueNeverEmpties(q[1..] + spawn(q[0]), spawn, k - 1);
    }
  }
}
