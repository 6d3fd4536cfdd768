/** An actor's serial mailbox (ActorWorkItemGroup) and the task-scheduler
    adapter in front of it (ActorScheduler).

    Enqueue, Dequeue, Exit and the end of a drain turn each run under the
    group's lock, so each is one atomic step here and keeps Valid().  The
    drain loop of Execute runs outside the lock; Execute below is one turn
    with no Enqueue or Exit between its dequeues (see
    DrainSpec.SelfRequeueNeverEmpties for what such enqueues do).  A submission of the group to the shared thread
    pool is recorded in the ghost counter `outstanding` (submitted and not
    yet finished); Valid() says it never exceeds one. */
module ActorRuntime {
  import opened Common
  import opened DrainSpec

  datatype WorkGroupStatus = Waiting | Runnable | Running | Exited

  /** The scheduling constants: throughput quota per turn, slow-task warning
      threshold and backlog limit, all as parameters. */
  datatype ScheduleOptions = ScheduleOptions(throughputTimeMs: int, executeWarningThresholdMs: int, maxPendingWorkItemsLimit: int)

  /** The values the source ships with. */
  const DefaultScheduleOptions := ScheduleOptions(100, 1000, 1000)

  /** Backlog warnings are at least this many ticks (milliseconds) apart. */
  const BacklogWarningIntervalMs := 10_000

  /** The backlog rule of Enqueue, for a queue that held `count` tasks before
      the append: whether to warn and the new last-warning timestamp. */
  datatype BacklogDecision = BacklogDecision(warn: bool, lastWarningTimestamp: int)

  function BacklogCheck(count: int, limit: int, now: int, last: int): BacklogDecision
  {
    if limit > 0 && count > limit then
      BacklogDecision(now > last + BacklogWarningIntervalMs, now)
    else
      BacklogDecision(false, last)
  }

  /** One Enqueue as seen by the backlog rule: the queue length before the
      append and the tick counter at that moment. */
  datatype BacklogProbe = BacklogProbe(count: int, now: int)

  /** The ticks at which a run of enqueues emits backlog warnings. */
  function BacklogWarnings(probes: seq<BacklogProbe>, limit: int, last: int): seq<int>
  {
    if probes == [] then []
    else
      var d := BacklogCheck(probes[0].count, limit, probes[0].now, last);
      (if d.warn then [probes[0].now] else []) + BacklogWarnings(probes[1..], limit, d.lastWarningTimestamp)
  }

  /** The tick counter never runs backwards and starts after `last`. */
  ghost predicate TicksFrom(probes: seq<BacklogProbe>, last: int)
  {
    forall k :: 0 <= k < |probes| ==> last <= probes[k].now && (k + 1 < |probes| ==> probes[k].now <= probes[k + 1].now)
  }

  /** Backlog warnings are rate-limited: each comes more than ten seconds
      after the last timestamp refresh, and two warnings are more than ten
      seconds apart. */
  lemma {:induction false} BacklogWarningsSpaced(probes: seq<BacklogProbe>, limit: int, last: int)
    requires TicksFrom(probes, last)
    ensures forall k :: 0 <= k < |BacklogWarnings(probes, limit, last)| ==>
      BacklogWarnings(probes, limit, last)[k] > last + BacklogWarningIntervalMs
    ensures forall k :: 0 <= k < |BacklogWarnings(probes, limit, last)| - 1 ==>
      BacklogWarnings(probes, limit, last)[k + 1] > BacklogWarnings(probes, limit, last)[k] + BacklogWarningIntervalMs
  {
    if probes != [] {
      var d := BacklogCheck(probes[0].count, limit, probes[0].now, last);
      assert TicksFrom(probes[1..], d.lastWarningTimestamp) by {
        forall k | 0 <= k < |probes[1..]|
          ensures d.lastWarningTimestamp <= probes[1..][k].now
        {
          var m := 0;
          while m < k + 1
            invariant m <= k + 1
            invariant probes[0].now <= probes[m].now
          {
            m := m + 1;
          }
        }
      }
      BacklogWarningsSpaced(probes[1..], limit, d.lastWarningTimestamp);
      var rest := BacklogWarnings(probes[1..], limit, d.lastWarningTimestamp);
      assert forall k :: 0 <= k < |rest| ==> rest[k] > d.lastWarningTimestamp + BacklogWarningIntervalMs;
      var head := if d.warn then [probes[0].now] else [];
      var w := BacklogWarnings(probes, limit, last);
      assert w == head + rest;
      assert d.lastWarningTimestamp >= last;
      assert d.warn ==> d.lastWarningTimestamp == probes[0].now > last + BacklogWarningIntervalMs;
      forall k | 0 <= k < |w|
        ensures w[k] > last + BacklogWarningIntervalMs
      {
        if k >= |head| {
          assert w[k] == rest[k - |head|];
        }
      }
      forall k | 0 <= k < |w| - 1
        ensures w[k + 1] > w[k] + BacklogWarningIntervalMs
      {
        if k >= |head| {
          assert w[k] == rest[k - |head|] && w[k + 1] == rest[k + 1 - |head|];
          assert rest[k + 1 - |head|] > rest[k - |head|] + BacklogWarningIntervalMs;
        } else {
          assert w[k + 1] == rest[0];
        }
      }
    }
  }

  class ActorWorkItemGroup {
    /** The pending continuations, head first. */
    var tasks: seq<Task>
    var state: WorkGroupStatus
    var lastLongQueueWarningTimestamp: int
    const options: ScheduleOptions
    const logger: LogSink
    const taskScheduler: ActorScheduler

    /** Pool submissions of this group that have not finished yet. */
    ghost var outstanding: nat
    /** Every task Enqueue accepted, in order. */
    ghost var accepted: seq<Task>
    /** Every task Dequeue handed out, in order. */
    ghost var dequeued: seq<Task>

    ghost predicate Valid()
      reads this
    {
      && outstanding <= 1
      && (state == Waiting ==> outstanding == 0)
      && (state == Runnable || state == Running ==> outstanding == 1)
      && dequeued + tasks == accepted
      && taskScheduler.logger == logger
    }

    constructor (taskScheduler: ActorScheduler, logger: LogSink, options: ScheduleOptions)
      requires taskScheduler.logger == logger
      ensures Valid()
      ensures this.taskScheduler == taskScheduler && this.logger == logger && this.options == options
      ensures tasks == [] && state == Waiting && lastLongQueueWarningTimestamp == 0
      ensures outstanding == 0 && accepted == [] && dequeued == []
    {
      tasks := [];
      state := Waiting;
      lastLongQueueWarningTimestamp := 0;
      this.taskScheduler := taskScheduler;
      this.logger := logger;
      this.options := options;
      outstanding := 0;
      accepted := [];
      dequeued := [];
    }

    /** The pending tasks in queue order, without removing them. */
    method GetTasks() returns (r: seq<Task>)
      ensures r == tasks
    {
      r := tasks;
    }

    /** The effect of Enqueue(task) at tick `now`. */
    twostate predicate EnqueueStep(task: Task, now: int)
      reads this, logger
    {
      && dequeued == old(dequeued)
      && (old(state) == Exited ==>
            && tasks == old(tasks) && state == Exited && outstanding == old(outstanding)
            && accepted == old(accepted)
            && lastLongQueueWarningTimestamp == old(lastLongQueueWarningTimestamp)
            && logger.entries == old(logger.entries))
      && (old(state) != Exited ==>
            var d := BacklogCheck(|old(tasks)|, options.maxPendingWorkItemsLimit, now, old(lastLongQueueWarningTimestamp));
            && tasks == old(tasks) + [task]
            && accepted == old(accepted) + [task]
            && lastLongQueueWarningTimestamp == d.lastWarningTimestamp
            && logger.entries == old(logger.entries)
                 + (if d.warn then [LogEntry(Warning, BacklogTooLong(|old(tasks)|, options.maxPendingWorkItemsLimit))] else []))
      && (old(state) == Waiting ==> state == Runnable && outstanding == old(outstanding) + 1)
      && (old(state) == Runnable || old(state) == Running ==> state == old(state) && outstanding == old(outstanding))
    }

    /** Appends a continuation; a group that was idle submits itself to the
        pool.  An exited group drops the task. */
    method Enqueue(task: Task, now: int)
      requires Valid()
      modifies this, logger
      ensures Valid()
      ensures EnqueueStep(task, now)
    {
      if state == Exited {
        return;
      }
      var count := |tasks|;
      tasks := tasks + [task];
      accepted := accepted + [task];

      var maxPendingItemsLimit := options.maxPendingWorkItemsLimit;
      if maxPendingItemsLimit > 0 && count > maxPendingItemsLimit {
        if now > lastLongQueueWarningTimestamp + BacklogWarningIntervalMs {
          logger.Write(Warning, BacklogTooLong(count, maxPendingItemsLimit));
        }
        lastLongQueueWarningTimestamp := now;
      }

      if state != Waiting {
        return;
      }
      state := Runnable;
      Schedule();
    }

    /** Takes the head task for the pool thread that runs this group's
        submission.  Any dequeue attempt on a live group marks it Running,
        even when the queue is empty. */
    method Dequeue() returns (t: Option<Task>)
      requires Valid() && outstanding == 1
      modifies this
      ensures Valid() && outstanding == 1
      ensures accepted == old(accepted) && lastLongQueueWarningTimestamp == old(lastLongQueueWarningTimestamp)
      ensures old(state) == Exited ==> t == None && state == Exited && tasks == old(tasks) && dequeued == old(dequeued)
      ensures old(state) != Exited ==> state == Running
      ensures old(state) != Exited && old(tasks) == [] ==> t == None && tasks == [] && dequeued == old(dequeued)
      ensures old(state) != Exited && old(tasks) != [] ==>
        t == Some(old(tasks)[0]) && tasks == old(tasks)[1..] && dequeued == old(dequeued) + [old(tasks)[0]]
    {
      t := None;
      if state == Exited {
        return;
      }
      state := Running;
      if |tasks| > 0 {
        t := Some(tasks[0]);
        dequeued := dequeued + [tasks[0]];
        tasks := tasks[1..];
      }
    }

    /** Hands the group to the shared pool.  The precondition is the
        headline guarantee: the group is never submitted while an earlier
        submission is still outstanding. */
    method Schedule()
      requires outstanding == 0
      modifies this
      ensures outstanding == 1
      ensures tasks == old(tasks) && state == old(state) && accepted == old(accepted) && dequeued == old(dequeued)
      ensures lastLongQueueWarningTimestamp == old(lastLongQueueWarningTimestamp)
    {
      outstanding := outstanding + 1;
    }

    /** One pool execution of the group: a drain turn followed by the
        finaliser.  The turn runs at least one dequeue, and stops on an
        empty queue, on an escaped exception (logged as an error) or once a
        positive throughput quota is used up. */
    method Execute(clock: nat -> int, attempt: Task -> TaskAttempt)
      requires Valid() && outstanding == 1
      modifies this, logger
      ensures Valid()
      ensures accepted == old(accepted) && lastLongQueueWarningTimestamp == old(lastLongQueueWarningTimestamp)
      ensures old(state) == Exited ==>
        && state == Exited && outstanding == 0 && tasks == old(tasks) && dequeued == old(dequeued)
        && logger.entries == old(logger.entries)
      ensures old(state) != Exited ==>
        var n := TurnLength(old(tasks), clock, options.throughputTimeMs, attempt);
        && tasks == old(tasks)[n..]
        && dequeued == old(dequeued) + old(tasks)[..n]
        && logger.entries == old(logger.entries) + TurnLog(old(tasks), n, clock, options.executeWarningThresholdMs, attempt)
        && (n < |old(tasks)| ==> state == Runnable && outstanding == 1)
        && (n == |old(tasks)| ==> state == Waiting && outstanding == 0)
    {
      ghost var n := TurnLength(tasks, clock, options.throughputTimeMs, attempt);
      DrainTurn(clock, attempt);
      assert old(state) != Exited ==> |tasks| == |old(tasks)| - n;
      FinishTurn();
    }

    /** The drain loop of Execute (its try block): dequeue and run tasks
        until the queue is empty, an exception escapes, or the quota is
        used up. */
    method DrainTurn(clock: nat -> int, attempt: Task -> TaskAttempt)
      requires Valid() && outstanding == 1
      modifies this, logger
      ensures Valid() && outstanding == 1
      ensures accepted == old(accepted) && lastLongQueueWarningTimestamp == old(lastLongQueueWarningTimestamp)
      ensures old(state) == Exited ==>
        && state == Exited && tasks == old(tasks) && dequeued == old(dequeued)
        && logger.entries == old(logger.entries)
      ensures old(state) != Exited ==>
        var n := TurnLength(old(tasks), clock, options.throughputTimeMs, attempt);
        && state == Running
        && tasks == old(tasks)[n..]
        && dequeued == old(dequeued) + old(tasks)[..n]
        && logger.entries == old(logger.entries) + TurnLog(old(tasks), n, clock, options.executeWarningThresholdMs, attempt)
    {
      var warningDurationMs := options.executeWarningThresholdMs;
      var throughputTimeMs := options.throughputTimeMs;
      ghost var q := tasks;
      ghost var n := TurnLength(q, clock, throughputTimeMs, attempt);

      var loopStart := clock(0);
      var taskStart, taskEnd := loopStart, loopStart;
      if state == Exited {
        // An exited group's first dequeue yields nothing: the turn is over.
        var t := Dequeue();
        return;
      }
      var i: nat := 0;
      var running := true;
      while running
        invariant Valid() && outstanding == 1 && state != Exited
        invariant accepted == old(accepted) && lastLongQueueWarningTimestamp == old(lastLongQueueWarningTimestamp)
        invariant DrainedUpTo(q, i, old(dequeued), old(logger.entries), clock, warningDurationMs, attempt)
        invariant loopStart == clock(0) && taskStart == clock(i)
        invariant running ==> TurnLengthFrom(q, i, clock, throughputTimeMs, attempt) == n
        invariant !running ==> i == n && state == Running
        decreases running, |q| - i
      {
        var ran, escaped;
        ran, escaped, taskEnd := DrainOne(q, i, old(dequeued), old(logger.entries), taskStart, clock, attempt);
        if !ran {
          running := false;
        } else {
          taskStart := taskEnd;
          i := i + 1;
          running := !escaped && (throughputTimeMs <= 0 || taskEnd - loopStart < throughputTimeMs);
        }
      }
    }

    /** The drain loop's progress: the first i tasks of q have been handed
        out and run, and the log holds what running them wrote. */
    ghost predicate DrainedUpTo(q: seq<Task>, i: nat, dequeued0: seq<Task>, entries0: seq<LogEntry>,
                                clock: nat -> int, warningMs: int, attempt: Task -> TaskAttempt)
      reads this, logger
    {
      && i <= |q| && tasks == q[i..] && dequeued == dequeued0 + q[..i]
      && logger.entries == entries0 + TurnLog(q, i, clock, warningMs, attempt)
    }

    /** One iteration of the drain loop: dequeue a task and, if there was
        one, run it; an exception escaping it is logged as the error that
        ends the turn. */
    method DrainOne(ghost q: seq<Task>, i: nat, ghost dequeued0: seq<Task>, ghost entries0: seq<LogEntry>,
                    taskStart: int, clock: nat -> int, attempt: Task -> TaskAttempt)
      returns (ran: bool, escaped: bool, taskEnd: int)
      requires Valid() && outstanding == 1 && state != Exited
      requires DrainedUpTo(q, i, dequeued0, entries0, clock, options.executeWarningThresholdMs, attempt)
      requires taskStart == clock(i)
      modifies this, logger
      ensures Valid() && outstanding == 1 && state == Running
      ensures accepted == old(accepted) && lastLongQueueWarningTimestamp == old(lastLongQueueWarningTimestamp)
      ensures !ran ==> i == |q| && DrainedUpTo(q, i, dequeued0, entries0, clock, options.executeWarningThresholdMs, attempt)
      ensures ran ==>
        && i < |q| && DrainedUpTo(q, i + 1, dequeued0, entries0, clock, options.executeWarningThresholdMs, attempt)
        && (escaped <==> attempt(q[i]) == Threw) && taskEnd == clock(i + 1)
    {
      var t := Dequeue();
      if t.None? {
        return false, false, taskStart;
      }
      ran := true;
      escaped, taskEnd := RunTask(t.value, i, taskStart, clock, attempt);
      if escaped {
        logger.Write(Error, DrainLoopFailed(t.value));
      }
      AppendAssociates(entries0, TurnLog(q, i, clock, options.executeWarningThresholdMs, attempt),
        TaskLog(q[i], i, clock, options.executeWarningThresholdMs, attempt));
      assert q[..i + 1] == q[..i] + [q[i]];
      AppendAssociates(dequeued0, q[..i], [q[i]]);
    }

    /** The body of one drain iteration: run the task through the scheduler,
        read the clock, and warn when the task ran longer than the
        threshold. */
    method RunTask(t: Task, i: nat, taskStart: int, clock: nat -> int, attempt: Task -> TaskAttempt)
      returns (escaped: bool, taskEnd: int)
      requires taskScheduler.logger == logger && taskStart == clock(i)
      modifies logger
      ensures escaped <==> attempt(t) == Threw
      ensures taskEnd == clock(i + 1)
      ensures logger.entries == old(logger.entries) + TaskRunLog(t, i, clock, options.executeWarningThresholdMs, attempt)
    {
      var warningDurationMs := options.executeWarningThresholdMs;
      escaped := taskScheduler.ExecTask(t, attempt);
      taskEnd := clock(i + 1);
      var taskDurationMs := taskEnd - taskStart;
      if taskDurationMs > warningDurationMs {
        logger.Write(Warning, SlowTask(taskDurationMs, warningDurationMs));
      }
    }

    /** The finaliser of Execute, under the lock: this submission is over; a
        live group with tasks left re-submits itself as Runnable, an emptied
        one goes back to Waiting, and an exited one stays Exited. */
    method FinishTurn()
      requires Valid() && outstanding == 1
      modifies this
      ensures Valid()
      ensures tasks == old(tasks) && accepted == old(accepted) && dequeued == old(dequeued)
      ensures lastLongQueueWarningTimestamp == old(lastLongQueueWarningTimestamp)
      ensures old(state) == Exited ==> state == Exited && outstanding == 0
      ensures old(state) != Exited && tasks != [] ==> state == Runnable && outstanding == 1
      ensures old(state) != Exited && tasks == [] ==> state == Waiting && outstanding == 0
    {
      outstanding := outstanding - 1;
      if state != Exited {
        if |tasks| > 0 {
          state := Runnable;
          Schedule();
        } else {
          state := Waiting;
        }
      }
    }

    /** Stops the group for good; calling it again changes nothing. */
    method Exit()
      requires Valid()
      modifies this
      ensures Valid()
      ensures state == Exited
      ensures tasks == old(tasks) && outstanding == old(outstanding)
      ensures accepted == old(accepted) && dequeued == old(dequeued)
      ensures lastLongQueueWarningTimestamp == old(lastLongQueueWarningTimestamp)
    {
      state := Exited;
    }
  }

  class ActorScheduler {
    const logger: LogSink
    /** The one work group of this scheduler; set during construction. */
    var workItemGroup: ActorWorkItemGroup?

    ghost predicate Valid()
      reads this, workItemGroup
    {
      && workItemGroup != null
      && workItemGroup.taskScheduler == this
      && workItemGroup.logger == logger
      && workItemGroup.Valid()
    }

    /** Creates exactly one work group, idle and empty, bound to this
        scheduler. */
    constructor (logger: LogSink, options: ScheduleOptions)
      ensures Valid() && this.logger == logger
      ensures workItemGroup != null && fresh(workItemGroup)
      ensures workItemGroup.options == options
      ensures workItemGroup.tasks == [] && workItemGroup.state == Waiting && workItemGroup.outstanding == 0
      ensures workItemGroup.accepted == [] && workItemGroup.dequeued == []
    {
      this.logger := logger;
      workItemGroup := null;
      new;
      workItemGroup := new ActorWorkItemGroup(this, logger, options);
    }

    /** The pending tasks, in queue order, without removing them. */
    method GetScheduledTasks() returns (r: seq<Task>)
      requires Valid()
      ensures r == workItemGroup.tasks
    {
      r := workItemGroup.GetTasks();
    }

    /** Submits a task: forwarded to the work group's Enqueue, nothing else. */
    method QueueTask(task: Task, now: int)
      requires Valid()
      modifies workItemGroup, logger
      ensures Valid() && workItemGroup == old(workItemGroup)
      ensures workItemGroup.EnqueueStep(task, now)
    {
      workItemGroup.Enqueue(task, now);
    }

    /** No task is ever run inline on the submitting thread. */
    function TryExecuteTaskInline(task: Task, taskWasPreviouslyQueued: bool): (inlined: bool)
      ensures !inlined
    {
      false
    }

    /** Runs a task handed back by the work group and warns when the runtime
        reports that it could not run it.  `escaped` stands for an exception
        leaving the call. */
    method ExecTask(task: Task, attempt: Task -> TaskAttempt) returns (escaped: bool)
      modifies logger
      ensures escaped <==> attempt(task) == Threw
      ensures logger.entries == old(logger.entries)
        + (if attempt(task) == NotExecuted then [LogEntry(Warning, ExecNotSuccessful(task))] else [])
    {
      var outcome := attempt(task);
      if outcome == Threw {
        return true;
      }
      var done := outcome == Executed;
      if !done {
        logger.Write(Warning, ExecNotSuccessful(task));
      }
      escaped := false;
    }

    /** Shuts the actor's work group down. */
    method Exit()
      requires Valid()
      modifies workItemGroup
      ensures Valid() && workItemGroup == old(workItemGroup)
      ensures workItemGroup.state == Exited && workItemGroup.tasks == old(workItemGroup.tasks)
      ensures workItemGroup.outstanding == old(workItemGroup.outstanding)
      ensures workItemGroup.accepted == old(workItemGroup.accepted) && workItemGroup.dequeued == old(workItemGroup.dequeued)
      ensures workItemGroup.lastLongQueueWarningTimestamp == old(workItemGroup.lastLongQueueWarningTimestamp)
    {
      workItemGroup.Exit();
    }
  }

  /** Any sequence of continuations queued on an idle actor runs in the
      order it was queued, in one turn, when no time passes and each one
      runs; the actor is then idle again. */
  method QueuedTasksRunInOrder(ts: seq<Task>) returns (ghost ran: seq<Task>, idle: bool)
    ensures ran == ts
    ensures idle
  {
    var logger := new LogSink();
    var scheduler := new ActorScheduler(logger, DefaultScheduleOptions);
    var group := scheduler.workItemGroup;
    var i := 0;
    while i < |ts|
      invariant 0 <= i <= |ts|
      invariant scheduler.Valid() && scheduler.workItemGroup == group && scheduler.logger == logger
      invariant fresh(group) && fresh(logger)
      invariant group.tasks == ts[..i] && group.dequeued == []
      invariant group.state == (if i == 0 then Waiting else Runnable)
      invariant group.outstanding == (if i == 0 then 0 else 1)
    {
      scheduler.QueueTask(ts[i], 0);
      assert ts[..i + 1] == ts[..i] + [ts[i]];
      i := i + 1;
    }
    assert ts[..i] == ts;
    if ts != [] {
      var clock := (k: nat) => 0;
      var attempt := (t: Task) => Executed;
      UnlimitedRunDrains(group.tasks, clock, DefaultScheduleOptions.throughputTimeMs, attempt);
      group.Execute(clock, attempt);
    }
    ran := group.dequeued;
    idle := group.state == Waiting && group.tasks == [];
  }

  /** A turn whose clock stands still and whose tasks all run takes the whole
      queue. */
  lemma UnlimitedRunDrains(q: seq<Task>, clock: nat -> int, quotaMs: int, attempt: Task -> TaskAttempt)
    requires forall k: nat :: clock(k) == clock(0)
    requires quotaMs > 0
    requires forall j :: 0 <= j < |q| ==> attempt(q[j]) != Threw
    ensures TurnLength(q, clock, quotaMs, attempt) == |q|
  {
    TurnDrainsAllWithoutStop(q, 0, clock, quotaMs, attempt);
  }
}
