# EasyServer core, modelled in Dafny

EasyServer is a C# actor server. This project models its core and proves properties of that model:

- **The actor mailbox.** `ActorWorkItemGroup` is an actor's serial queue of task continuations. It is fronted by the `ActorScheduler` task scheduler. It submits itself to the shared thread pool while it has work. Each pool turn drains tasks until:
  - the queue is empty;
  - a task throws; or
  - the throughput quota is used up.
  The group then re-submits itself or goes back to waiting.
- **RPC responses.** `Response` has three kinds: the completed singleton, the pooled typed response, and the exception response. `ResponseHandler` matches an incoming response to the callback registered for its RPC id and completes that callback at most once.
- **Invokable proxies.** These turn an actor method call into a `Response`.
- **The hot-fix registry.** It maps interface names to implementation factories.
- **The service registry.**
  - `ServiceRegistryFactory` checks the configuration and picks the implementation for a scheme.
  - `EtcdServiceRegistry` builds the etcd connection string, tracks per-prefix revisions, maintains the watched key/value cache and fans events out to listeners.
- **The fixed-properties logger.** It carries a dictionary of key/value properties and appends them to every message it forwards.
- **Utilities.** Exponential back-off, unique-id generation, and the null-or-empty helpers.

The modelling conventions are:

- Locks become atomic methods.
- A `null` reference becomes `Option`.
- A thrown exception becomes an `Outcome.Raise`.
- The clock, random draws and GUIDs are parameters.
- Dictionary enumeration order, which .NET leaves unspecified, is a nondeterministic choice (`:|`).

The typed `Response<T>` is one runtime-typed class (`TypedResponse`). Its `resultType` is a `TypeDesc`, and C# casts are modelled by `Cast`.

The actor mailbox's headline guarantee is stated in `ActorWorkItemGroup.Valid()` and in the precondition of `Schedule`. A ghost counter `outstanding` counts pool submissions that have not finished yet, and it never exceeds one. So a group is never submitted twice at once. Every state transition keeps FIFO order: the tasks handed out, followed by the tasks still queued, are exactly the tasks accepted.

## Model

| member | source | states |
|---|---|---|
| ActorRuntime.BacklogCheck | EasyServer/Core/ActorWorkItemGroup.cs:71-81 | The backlog rule for one Enqueue. Above a positive limit the timestamp is refreshed to now, and a warning is due only if more than 10 000 ms passed since the previous timestamp. At or below the limit, or with a non-positive limit, nothing happens. BacklogWarningsSpaced is the property proved about it. |
| ActorRuntime.BacklogWarningsSpaced | EasyServer/Core/ActorWorkItemGroup.cs:71-81 | On a non-decreasing tick counter, every backlog warning comes more than 10 000 ms after the last timestamp refresh, and consecutive warnings are more than 10 000 ms apart. |
| ActorRuntime.ActorWorkItemGroup.constructor | EasyServer/Core/ActorWorkItemGroup.cs:35-42 | A new group is Waiting, with an empty queue and no outstanding submission. |
| ActorRuntime.ActorWorkItemGroup.GetTasks | EasyServer/Core/ActorWorkItemGroup.cs:44-50 | Returns the pending tasks in queue order without removing them. |
| ActorRuntime.ActorWorkItemGroup.Enqueue | EasyServer/Core/ActorWorkItemGroup.cs:60-89 | An exited group drops the task and changes nothing. Otherwise the task is appended, a backlog warning is logged by the rate-limit rule, and a Waiting group becomes Runnable and is submitted exactly once. FIFO and the single-submission invariant are kept. |
| ActorRuntime.ActorWorkItemGroup.Dequeue | EasyServer/Core/ActorWorkItemGroup.cs:92-107 | An exited group yields nothing. A live group becomes Running and hands out its head task, if any. The handed-out sequence grows by exactly that task. |
| ActorRuntime.ActorWorkItemGroup.Schedule | EasyServer/Core/ActorWorkItemGroup.cs:110-113 | Callable only when no submission is outstanding. Afterwards exactly one is outstanding. |
| ActorRuntime.ActorWorkItemGroup.Execute | EasyServer/Core/ActorWorkItemGroup.cs:118-175 | With no Enqueue or Exit during the turn (see Left out), a turn runs exactly the first TurnLength tasks of the queue at entry, in order, and writes exactly TurnLog to the log. If it left tasks, the group re-submits itself (Runnable, one outstanding). If it emptied the queue, the group goes back to Waiting with none outstanding. An exited group only releases its submission. |
| ActorRuntime.ActorWorkItemGroup.DrainTurn | EasyServer/Core/ActorWorkItemGroup.cs:125-156 | With no Enqueue or Exit during the loop, the drain loop removes exactly the first TurnLength tasks of the entry queue and logs the slow-task, not-executed and escaped-exception entries of each task run. |
| ActorRuntime.ActorWorkItemGroup.DrainOne | EasyServer/Core/ActorWorkItemGroup.cs:127-156 | One iteration: an empty queue ends the loop with nothing run. Otherwise the head task of the remaining queue is handed out and run, the log grows by exactly that task's entries, and an escape is reported exactly when the task threw. |
| ActorRuntime.ActorWorkItemGroup.RunTask | EasyServer/Core/ActorWorkItemGroup.cs:134-148 | Runs one task through the scheduler. It reports an escape exactly when the task threw, and warns when the task ran longer than the threshold. |
| ActorRuntime.ActorWorkItemGroup.FinishTurn | EasyServer/Core/ActorWorkItemGroup.cs:157-174 | Releases the submission. A live group with tasks left re-submits itself, an emptied one waits, and an exited one stays exited. |
| ActorRuntime.ActorWorkItemGroup.Exit | EasyServer/Core/ActorWorkItemGroup.cs:177-183 | The group becomes Exited and keeps its queue and submission count. A second call changes nothing. |
| ActorRuntime.ActorScheduler.constructor | EasyServer/Core/ActorScheduler.cs:14-18 | Creates exactly one fresh, idle, empty work group bound to this scheduler and its logger. |
| ActorRuntime.ActorScheduler.GetScheduledTasks | EasyServer/Core/ActorScheduler.cs:20-23 | Returns the work group's pending tasks in queue order. |
| ActorRuntime.ActorScheduler.QueueTask | EasyServer/Core/ActorScheduler.cs:25-28 | Has exactly the effect of the work group's Enqueue. |
| ActorRuntime.ActorScheduler.TryExecuteTaskInline | EasyServer/Core/ActorScheduler.cs:30-34 | No task is ever run inline. |
| ActorRuntime.ActorScheduler.ExecTask | EasyServer/Core/ActorScheduler.cs:36-43 | An exception escapes exactly when the task threw. A "not successful" warning is logged exactly when the runtime refused to run the task. |
| ActorRuntime.ActorScheduler.Exit | EasyServer/Core/ActorScheduler.cs:45-48 | The work group becomes Exited. Its queue, outstanding submission, FIFO history and backlog timestamp are unchanged. |
| ActorRuntime.QueuedTasksRunInOrder | EasyServer/Core/ActorWorkItemGroup.cs:60-175 | Any sequence of tasks queued on an idle actor is run in exactly the order it was queued, in one turn when no time passes and every task runs, and the actor is idle afterwards. |
| ActorRuntime.UnlimitedRunDrains | EasyServer/Core/ActorWorkItemGroup.cs:151 | When no time passes and no task throws, one turn drains the whole queue. |
| DrainSpec.EndsTurnAfter | EasyServer/Core/ActorWorkItemGroup.cs:151-155 | The i-th task of a turn ends the turn exactly when an exception escaped it or a positive quota has been used up since the loop started. A quota <= 0 never ends a turn on time. |
| DrainSpec.TurnLengthFrom | EasyServer/Core/ActorWorkItemGroup.cs:125-151 | A turn never runs past the queue's end, and it runs at least one more task whenever one is queued. |
| DrainSpec.TurnLength | EasyServer/Core/ActorWorkItemGroup.cs:125-151 | A turn takes at most the whole queue, and at least one task from a non-empty queue. |
| DrainSpec.TaskRunLog | EasyServer/Core/ActorWorkItemGroup.cs:134-148 | What the loop body writes for one task: the scheduler's warning when the task was refused, then the slow-task warning when its duration exceeds the threshold. |
| DrainSpec.TaskLog | EasyServer/Core/ActorWorkItemGroup.cs:134-155 | One task's log entries, followed by the drain-loop error when an exception escaped it. |
| DrainSpec.TurnLog | EasyServer/Core/ActorWorkItemGroup.cs:125-155 | The log of a turn's first n tasks: their TaskLog entries, in the order the tasks ran. Execute and DrainTurn state their log in its terms. |
| DrainSpec.TurnLengthExplained | EasyServer/Core/ActorWorkItemGroup.cs:126-155 | Every task of a turn except the last ran without ending it. A turn that leaves tasks ended because its last task threw or the quota elapsed. |
| DrainSpec.TurnDrainsAllWithoutStop | EasyServer/Core/ActorWorkItemGroup.cs:125-151 | A turn in which no task ends it runs the whole queue. |
| DrainSpec.UnlimitedQuotaDrainsAll | EasyServer/Core/ActorWorkItemGroup.cs:151 | With a non-positive quota and no throwing task, a turn runs the whole queue. |
| DrainSpec.TurnYieldsOnceQuotaElapsed | EasyServer/Core/ActorWorkItemGroup.cs:151 | Once a positive quota has elapsed after the j-th task, the turn runs no task beyond it. |
| DrainSpec.QueueAfterRuns | EasyServer/Core/ActorWorkItemGroup.cs:125-151 | The queue after k drain iterations in which each run task enqueues its follow-ups at the tail. An empty queue stays empty. SelfRequeueNeverEmpties is stated in its terms. |
| DrainSpec.SelfRequeueNeverEmpties | EasyServer/Core/ActorWorkItemGroup.cs:125-151 | When every continuation run in the drain loop enqueues at least one follow-up on the same group, the queue is still non-empty after any number of iterations, and never shorter than at the start, so the loop never stops on an empty queue. |
| Responses.Cast | EasyServer/Core/Response/Response.cs:81-85 | A cast succeeds exactly when the value fits the type and then yields the value unchanged. Otherwise it raises NullReference for null and InvalidCast for anything else. |
| Responses.TypedResponse.constructor | EasyServer/Core/Response/Response.cs:69-73 | A new typed response holds its type's default. |
| Responses.TypedResponse.Dispose | EasyServer/Core/Response/Response.cs:97-101 | The stored value is reset to the default and the object is appended to the pool. |
| Responses.ExceptionResponse.constructor | EasyServer/Core/Response/Response.cs:109-124 | A new exception response has no exception. |
| Responses.Rethrown | EasyServer/Core/Response/Response.cs:127-131 | Re-raising yields the stored exception. A missing exception raises ArgumentNull. |
| Responses.GetResult | EasyServer/Core/Response/Response.cs:57-131 | The completed response yields default(T). A typed response yields its value cast to T, and exactly its value at its own type. An exception response raises its exception. |
| Responses.ResultOf | EasyServer/Core/Response/Response.cs:54-121 | Reading Result raises exactly for an exception response. It is null for the completed response and a well-typed value for a typed one. |
| Responses.ResultAgreesWithGetResult | EasyServer/Core/Response/Response.cs:89-95 | Reading Result agrees with GetResult at the response's own type. |
| Responses.ExceptionOf | EasyServer/Core/Response/Response.cs:55-124 | Only an exception response has an exception, and it is the stored one. |
| Responses.SetResult | EasyServer/Core/Response/Response.cs:112-121 | The completed and exception responses refuse with InvalidOperation. A typed response accepts exactly well-typed values. A refused value leaves the old value and raises the cast's error. |
| Responses.SetException | EasyServer/Core/Response/Response.cs:124 | The setter succeeds exactly on an exception response and stores the exception. Otherwise it raises InvalidOperation and changes no value. |
| Responses.GetSimpleResultType | EasyServer/Core/Response/Response.cs:87 | Only a typed response has a result type, and it is its own. |
| Responses.ToString | EasyServer/Core/Response/Response.cs:103 | The completed response prints "[Completed]". Exception text appears only for an exception response's own exception. Value text appears only for a typed response's non-null value. |
| Responses.BaseToString | EasyServer/Core/Response/Response.cs:40 | The inherited rule: an exception's text when there is one, else the result's text, else "[null]". ToStringRefinesBase relates it to the overrides. |
| Responses.ToStringRefinesBase | EasyServer/Core/Response/Response.cs:40 | The typed and exception overrides agree with the inherited rule wherever it applies. The completed response's inherited text is "[null]", and an exception response without an exception makes the inherited rule raise. |
| Responses.ResponsePool.constructor | EasyServer/Core/Pools/DefaultConcurrentObjectPoolPolicy.cs:7-9 | The pool starts empty. |
| Responses.ResponsePool.FirstOfType | EasyServer/Core/Pools/DefaultConcurrentObjectPoolPolicy.cs:7-9 | Finds the first pooled object of the requested type. It skips only objects of other types. |
| Responses.ResponsePool.Get | EasyServer/Core/Pools/DefaultConcurrentObjectPoolPolicy.cs:7-9 | Hands out an object of the requested type that holds the default and is no longer pooled. It is either removed from the pool or, only when none of that type is pooled, fresh. |
| Responses.ResponsePool.Return | EasyServer/Core/Pools/DefaultConcurrentObjectPoolPolicy.cs:7-9 | A returned object is appended to the pool. |
| Responses.FromException | EasyServer/Core/Response/Response.cs:14 | A fresh exception response whose Exception is the given one. Both GetResult at every type and Result raise it. |
| Responses.FromResult | EasyServer/Core/Response/Response.cs:22-27 | A pooled typed response whose result type is T, GetResult and Result are the value, and which has no exception. It is taken out of the pool or, only if none of that type was pooled, fresh. |
| Responses.Dispose | EasyServer/Core/Response/Response.cs:59 | A typed response is cleared and pooled. The completed and exception responses leave the pool and their state alone. |
| Responses.DisposedResponseIsReused | EasyServer/Core/Response/Response.cs:97-101 | A disposed typed response is handed out again by the next FromResult, and it holds the new value, not the stale one. |
| ResponseHandling.IsRequest | EasyServer/Core/Message.cs:34 | A message is a request exactly when its RpcId is positive. RpcId is unsigned, so RpcId 0 alone marks a one-way message. |
| ResponseHandling.CompletionSource.constructor | EasyServer/Core/Response/IResponseCompletionSource.cs:12-19 | A stand-in for the completion source the caller injects (the source only declares its interface): a new one has received no completion. |
| ResponseHandling.CompletionSource.Complete | EasyServer/Core/Response/IResponseCompletionSource.cs:12-19 | Records the value unless the source rejects it. A rejection raises and records nothing. |
| ResponseHandling.CallBack.constructor | EasyServer/Core/Response/ResponseHandler.cs:25-33 | A new callback is not completed and has delivered nothing. |
| ResponseHandling.CallBack.IsCompleted | EasyServer/Core/Response/ResponseHandler.cs:18 | The flag is set exactly when a response has been delivered. |
| ResponseHandling.CallBack.GetResponseType | EasyServer/Core/Response/ResponseHandler.cs:20-23 | The result type the waiting source expects. |
| ResponseHandling.CallBack.Do | EasyServer/Core/Response/ResponseHandler.cs:35-45 | The first call delivers the response once. Every later call changes nothing and raises nothing. |
| ResponseHandling.CallBack.ResponseCallback | EasyServer/Core/Response/ResponseHandler.cs:47-57 | Completes the source with the response. If that raises, it completes the source with the raised exception wrapped as an exception response. |
| ResponseHandling.CallBackCompletesOnce | EasyServer/Core/Response/ResponseHandler.cs:35-45 | Two deliveries to one callback complete its source exactly once, with the first response. |
| ResponseHandling.ResponseHandler.constructor | EasyServer/Core/Response/ResponseHandler.cs:65-69 | A new handler has no callbacks. |
| ResponseHandling.ResponseHandler.ReceiveResponse | EasyServer/Core/Response/ResponseHandler.cs:72-84 | A known id's callback is removed and run. An unknown id logs a Debug entry and runs nothing. No callback for the id remains either way. |
| ResponseHandling.ResponseHandler.AddCallback | EasyServer/Core/Response/ResponseHandler.cs:87-91 | Registers a new callback unless the id already has one, which is kept unchanged. |
| ResponseHandling.ResponseHandler.Clear | EasyServer/Core/Response/ResponseHandler.cs:93-96 | Forgets every callback. |
| ResponseHandling.DuplicateResponseIsIgnored | EasyServer/Core/Response/ResponseHandler.cs:72-84 | A second response for an id that was already answered completes nothing and is logged as unknown. |
| InvokableProxies.Invoke | EasyServer/Core/InvokableProxy.cs:34-39 | Succeeds exactly when the inner call does, and returns the completed response. An inner exception propagates unchanged. |
| InvokableProxies.InvokeTyped | EasyServer/Core/InvokableProxy.cs:55-59 | Succeeds exactly when the inner call does, and returns a pooled typed response holding the result. An inner exception propagates and leaves the pool alone. |
| InvokableProxies.Deserialize | EasyServer/Core/InvokableProxy.cs:43 | The default implementation ignores the serialized arguments and leaves the parameters unchanged. |
| InvokableProxies.Update | EasyServer/Core/InvokableProxy.cs:45 | The default implementation ignores the typed values and leaves the parameters unchanged. The two defaults coincide in the source; they differ only in the kind of argument they ignore. |
| Hotfix.Activate | EasyServer/ActorExample/HotfixManager.cs:41-53 | The factory builds an instance of its product type. |
| Hotfix.HotfixManager.constructor | EasyServer/ActorExample/HotfixManager.cs:10 | The registry starts empty. |
| Hotfix.HotfixManager.RegisterInterfaceImpl | EasyServer/ActorExample/HotfixManager.cs:12-38 | A type with an actor constructor (re)binds the name, and one without changes nothing. No other name changes. |
| Hotfix.HotfixManager.CreateInterfaceObject | EasyServer/ActorExample/HotfixManager.cs:41-53 | An unknown name raises KeyNotFound. A known one builds the registered product, cast to the requested type. |
| Hotfix.LaterRegistrationWins | EasyServer/ActorExample/HotfixManager.cs:29-35 | Re-registering a name replaces the earlier factory. |
| Backoff.Wrap32 | EasyServer/Utility/ExponentialBackoff.cs:33 | The result is a 32-bit integer congruent to the input modulo 2^32, and equal to it when it already fits. |
| Backoff.BaseDelay | EasyServer/Utility/ExponentialBackoff.cs:33 | The delay is the smaller of the maximum and initial·2^attempt: it exceeds neither and equals one of them. |
| Backoff.BaseDelayBounds | EasyServer/Utility/ExponentialBackoff.cs:33 | For 0 ≤ initial ≤ max, the delay starts at initial, stays within [initial, max] and never shrinks. |
| Backoff.AsWrittenBaseDelay | EasyServer/Utility/ExponentialBackoff.cs:33 | The 32-bit computation yields a 32-bit value no larger than the maximum. |
| Backoff.AsWrittenAgreesBelowOverflow | EasyServer/Utility/ExponentialBackoff.cs:33 | With the default delays, the 32-bit computation is right up to attempt 21. |
| Backoff.AsWrittenOverflowsAtAttempt22 | EasyServer/Utility/ExponentialBackoff.cs:33-36 | At attempt 22 it wraps to -100663296, so NextDelay would return a negative delay whatever the jitter. |
| Backoff.ExponentialBackoff.constructor | EasyServer/Utility/ExponentialBackoff.cs:19-22 | Uses the default 1000 ms and 32000 ms delays, with both counters at zero. |
| Backoff.ExponentialBackoff.WithDelays | EasyServer/Utility/ExponentialBackoff.cs:23-26 | Uses the given delays, with both counters at zero. |
| Backoff.ExponentialBackoff.CurrentAttempt | EasyServer/Utility/ExponentialBackoff.cs:16 | The attempt counter is the number of delays handed out. |
| Backoff.ExponentialBackoff.DeltaMilliseconds | EasyServer/Utility/ExponentialBackoff.cs:17 | The running total is the sum of the delays handed out. |
| Backoff.ExponentialBackoff.NextDelay | EasyServer/Utility/ExponentialBackoff.cs:28-39 | Returns the capped exponential delay for the current attempt plus the jitter. It counts the attempt and adds the delay to the running total. |
| Backoff.ExponentialBackoff.Reset | EasyServer/Utility/ExponentialBackoff.cs:42-46 | Clears the attempt counter and the running total. |
| Backoff.DefaultDelaysBounded | EasyServer/Utility/ExponentialBackoff.cs:9-10 | With the defaults, every delay lies in [1000, 33000) ms. |
| TypeExtension.IsNullOrEmptyArray | EasyServer/Utility/TypeExtension.cs:7-10 | True for a null or zero-length array. IsNullOrEmptyArrayCases proves its three cases. |
| TypeExtension.IsNullOrEmptyCollection | EasyServer/Utility/TypeExtension.cs:12-15 | True for a null collection or a zero count. IsNullOrEmptyCollectionCases relates it to the array overload. |
| TypeExtension.IsNullOrEmptyArrayCases | EasyServer/Utility/TypeExtension.cs:7-10 | Null or empty arrays answer true, and every non-empty array answers false. |
| TypeExtension.IsNullOrEmptyCollectionCases | EasyServer/Utility/TypeExtension.cs:12-15 | On a collection holding an array's elements, the collection test agrees with the array test, null included. |
| Utils.HexText | EasyServer/Utility/Utils.cs:16 | Exactly the requested number of hexadecimal digits. |
| Utils.FormatN | EasyServer/Utility/Utils.cs:16 | The "N" format of a GUID has 32 characters. |
| Utils.FormatNHasNoDash | EasyServer/Utility/Utils.cs:15-16 | The "N" format contains no '-'. |
| Utils.GenerateUniqueId | EasyServer/Utility/Utils.cs:10-26 | Raises ArgumentOutOfRange exactly for a negative length. Otherwise it returns a prefix of the GUID's "N" text of length min(length, 32), without '-'. |
| Common.LogSink.constructor | EasyServer/Core/ActorWorkItemGroup.cs:35-42 | A stand-in for the injected logger, which the cited constructor receives rather than creates: a new log is empty. |
| Common.LogSink.Write | EasyServer/Core/ActorWorkItemGroup.cs:78 | Appends exactly one entry. |
| ServiceRegistryFactory.ConflictFromMeaning | EasyServer/Registry/ServiceRegistryFactory.cs:109-128 | The nested loops resumed at (i, j) find a conflict exactly when some overlapping pair comes at or after (i, j). |
| ServiceRegistryFactory.HasConflictingPrefixes | EasyServer/Registry/ServiceRegistryFactory.cs:109-128 | True exactly when the prefix list exists and one prefix starts with another at a different index. |
| ServiceRegistryFactory.ConflictExamples | EasyServer/Registry/ServiceRegistryFactory.cs:109-128 | A repeated prefix conflicts. A single prefix, or two that do not overlap, do not. |
| ServiceRegistryFactory.CheckConfig | EasyServer/Registry/ServiceRegistryFactory.cs:81-102 | Succeeds exactly for a configuration with a connection string and a non-empty, non-conflicting prefix list. Failures raise the first failing check's message, in the source's order. |
| ServiceRegistryFactory.HasSchemeAttribute | EasyServer/Registry/ServiceRegistryFactory.cs:72-77 | True exactly when the type carries a [Scheme] attribute whose value equals the scheme ignoring case. A null scheme matches nothing. |
| ServiceRegistryFactory.Candidate | EasyServer/Registry/ServiceRegistryFactory.cs:33-39 | A concrete registry implementation that is neither an interface nor abstract, whose name equals the scheme ignoring case or whose [Scheme] attribute does. MatchingTypes and CreateRegistry are stated in its terms. |
| ServiceRegistryFactory.MatchingTypes | EasyServer/Registry/ServiceRegistryFactory.cs:36-39 | Keeps exactly the concrete registry implementations whose name or [Scheme] value equals the scheme, ignoring case. |
| ServiceRegistryFactory.TwoCandidatesMatchTwice | EasyServer/Registry/ServiceRegistryFactory.cs:36-39 | Two candidate entries give at least two matches. |
| ServiceRegistryFactory.CreateRegistry | EasyServer/Registry/ServiceRegistryFactory.cs:8-70 | A configuration error propagates. With a valid configuration: no candidate raises NotImplemented and vice versa; two or more candidates raise InvalidOperation; exactly one candidate is returned when it has a configuration constructor and raises InvalidOperation when it has none. Any success is the unique candidate. |
| EtcdRegistry.Split | EasyServer/Registry/EtcdServiceRegistry.cs:178-188 | Splitting on ',' gives at least one piece, and no piece holds a comma. |
| EtcdRegistry.JoinSplit | EasyServer/Registry/EtcdServiceRegistry.cs:178-188 | Joining the split pieces with ',' gives back the string. |
| EtcdRegistry.SplitJoin | EasyServer/Registry/EtcdServiceRegistry.cs:178-188 | Splitting the join of comma-free pieces gives back the pieces. |
| EtcdRegistry.BuildConnectionString | EasyServer/Registry/EtcdServiceRegistry.cs:170-191 | As written, the result is the scheme prefix followed by the unchanged configured string. |
| EtcdRegistry.WithScheme | EasyServer/Registry/EtcdServiceRegistry.cs:180-185 | Prefixes every endpoint with the scheme, keeping count and order. |
| EtcdRegistry.CorrectedConnectionString | EasyServer/Registry/EtcdServiceRegistry.cs:178-188 | The endpoints of the result are exactly the configured endpoints, each prefixed with the scheme, in order. |
| EtcdRegistry.ConnectionStringLosesSecondScheme | EasyServer/Registry/EtcdServiceRegistry.cs:189 | For two endpoints a and b, the as-written string has "scheme://a" and a bare "b". The corrected one has both prefixed. |
| EtcdRegistry.TtlHealthy | EasyServer/Registry/EtcdServiceRegistry.cs:269-281 | A lease is healthy exactly when its remaining TTL exceeds the 5 s timeout. A fresh 60 s lease is healthy. |
| EtcdRegistry.UpdateIfGreater | EasyServer/Registry/EtcdServiceRegistry.cs:290-310 | Updates exactly when the new value is greater. The stored value becomes the maximum of the two. |
| EtcdRegistry.UpdateIfGreaterCommutes | EasyServer/Registry/EtcdServiceRegistry.cs:290-310 | Two updates commute, and repeating one is a no-op. |
| EtcdRegistry.GrowsTransitively | EasyServer/Registry/EtcdServiceRegistry.cs:313-345 | Revision growth composes across calls. |
| EtcdRegistry.CoveredStaysCovered | EasyServer/Registry/EtcdServiceRegistry.cs:313-345 | A revision once recorded for a key stays covered after further growth. |
| EtcdRegistry.CacheStep | EasyServer/Registry/EtcdServiceRegistry.cs:587-614 | One watch event against the cache. A Put of a new key or a new version stores it and announces one Change. A Put of the cached version does nothing. A Delete removes the key and announces one Delete with the previous key/value. CacheStepCases proves the three cases. |
| EtcdRegistry.CacheStepCases | EasyServer/Registry/EtcdServiceRegistry.cs:579-618 | A Put with a new key or version stores the value and announces a Change. A Put of the same version is silent. A Delete removes the key and announces a Delete of the previous value. |
| EtcdRegistry.WatchStep | EasyServer/Registry/EtcdServiceRegistry.cs:579-618 | Processing one more event advances the cache and the notifications by exactly that event's step. |
| EtcdRegistry.WatchCacheKeepsKeys | EasyServer/Registry/EtcdServiceRegistry.cs:579-618 | The cache stays keyed by each entry's own key through any batch of events. |
| EtcdRegistry.RepeatedPutIsSilent | EasyServer/Registry/EtcdServiceRegistry.cs:587-610 | Re-applying the same Put leaves the cache unchanged and announces nothing. |
| EtcdRegistry.Selected | EasyServer/Registry/EtcdServiceRegistry.cs:729-739 | The selection is no longer than the values. |
| EtcdRegistry.SelectedMeaning | EasyServer/Registry/EtcdServiceRegistry.cs:729-739 | A value is selected exactly when its key starts with one of the prefixes. The selection is a sub-multiset of the values. |
| EtcdRegistry.ListenerCall | EasyServer/Registry/EtcdServiceRegistry.cs:721-751 | One listener's share of an event. A listener with null or empty prefixes, or with no matching value, gets no call. Otherwise it gets one call carrying its Selected values. |
| EtcdRegistry.Dispatch | EasyServer/Registry/EtcdServiceRegistry.cs:719-758 | The calls of an event, listener by listener in registration order. DispatchStep and DispatchMeaning state its properties. |
| EtcdRegistry.DispatchMeaning | EasyServer/Registry/EtcdServiceRegistry.cs:710-759 | Each listener is called at most once. Each call goes to a registered listener with a non-empty prefix list, carries the event type, and carries exactly its non-empty selection of the values. |
| EtcdRegistry.EtcdServiceRegistry.constructor | EasyServer/Registry/EtcdServiceRegistry.cs:14-19 | The registry starts with no listeners, no cached values, no revisions and no notifications. |
| EtcdRegistry.EtcdServiceRegistry.AddListener | EasyServer/Registry/EtcdServiceRegistry.cs:54-64 | A null listener is ignored. Any other is appended. Nothing else changes. |
| EtcdRegistry.EtcdServiceRegistry.GetRevision | EasyServer/Registry/EtcdServiceRegistry.cs:411-429 | An exact key wins. Otherwise it returns the revision of some stored key that prefixes the argument, and 0 when none does. |
| EtcdRegistry.EtcdServiceRegistry.UpdateRevision | EasyServer/Registry/EtcdServiceRegistry.cs:313-345 | An exact key or, failing that, one covering key is raised to the maximum. Otherwise the prefix is inserted. Revisions never decrease, the prefix is covered afterwards, and nothing else changes. |
| EtcdRegistry.EtcdServiceRegistry.DispatchEvent | EasyServer/Registry/EtcdServiceRegistry.cs:710-759 | Appends exactly the notifications Dispatch describes, and changes nothing else. |
| EtcdRegistry.EtcdServiceRegistry.SelectValues | EasyServer/Registry/EtcdServiceRegistry.cs:729-739 | The values whose keys match a prefix, in order. |
| EtcdRegistry.EtcdServiceRegistry.NotifyListener | EasyServer/Registry/EtcdServiceRegistry.cs:717-757 | The call one listener receives is exactly its ListenerCall: none without prefixes or matches, otherwise one carrying its selection. |
| EtcdRegistry.EtcdServiceRegistry.WatchCallback | EasyServer/Registry/EtcdServiceRegistry.cs:566-619 | Every event's key ends up covered at the header revision, and no revision decreases. The cache and the notifications are those of applying the events in order. |
| EtcdRegistry.EtcdServiceRegistry.RecordRevisions | EasyServer/Registry/EtcdServiceRegistry.cs:571-576 | Every event's key ends up covered at the header revision, without lowering any revision. |
| EtcdRegistry.EtcdServiceRegistry.ApplyWatchEvents | EasyServer/Registry/EtcdServiceRegistry.cs:579-618 | The cache and the notifications become those of applying the events in order. Listeners and revisions do not change. |
| EtcdRegistry.EtcdServiceRegistry.ApplyWatchEvent | EasyServer/Registry/EtcdServiceRegistry.cs:581-617 | The cache takes one event's step, and its announcement goes to the listeners. |
| EtcdRegistry.RevisionReadBack | EasyServer/Registry/EtcdServiceRegistry.cs:313-345 | When at most one stored key prefixes the argument, reading back after an update returns at least the recorded revision. |
| FixedLogging.KeysOf | EasyServer/Log/FixedPropertiesLogger.cs:26 | One key per property, in order: the i-th key is the i-th property's key. |
| FixedLogging.AsMapDomain | EasyServer/Log/FixedPropertiesLogger.cs:26 | The dictionary's keys are exactly the keys present in the property list. |
| FixedLogging.SetProperty | EasyServer/Log/FixedPropertiesLogger.cs:37 | Existing keys keep their positions, and at most one entry is added. |
| FixedLogging.SetPropertyMap | EasyServer/Log/FixedPropertiesLogger.cs:37 | As a dictionary, the indexer assignment maps the key to the value and leaves every other key alone. |
| FixedLogging.SetPropertyDistinct | EasyServer/Log/FixedPropertiesLogger.cs:37 | Assignment keeps keys unique. |
| FixedLogging.Merge | EasyServer/Log/FixedPropertiesLogger.cs:53-58 | A copy of the properties with the pairs written over it in order. MergeLastWins, MergeKeepsOthers, MergeKeepsKeys and MergeTwice prove its properties. |
| FixedLogging.MergeLastWins | EasyServer/Log/FixedPropertiesLogger.cs:35-38 | After merging pairs, each key maps to the value of its last pair. |
| FixedLogging.MergeKeepsOthers | EasyServer/Log/FixedPropertiesLogger.cs:34-38 | Keys no pair mentions keep their inherited value, and no key appears from nowhere. |
| FixedLogging.MergeKeepsKeys | EasyServer/Log/FixedPropertiesLogger.cs:53-58 | Inherited keys keep their order, and merging keeps keys unique. |
| FixedLogging.MergeTwice | EasyServer/Log/FixedPropertiesLogger.cs:51-59 | Adding two batches of properties in turn equals adding their concatenation. |
| FixedLogging.NatToString | EasyServer/Log/FixedPropertiesLogger.cs:169 | A line number prints as one or more decimal digits. |
| FixedLogging.NatToStringRoundTrip | EasyServer/Log/FixedPropertiesLogger.cs:169 | The printed digits read back as the number. |
| FixedLogging.PropertiesText | EasyServer/Log/FixedPropertiesLogger.cs:169 | No properties print as nothing. Otherwise the text starts with the first "key=value". |
| FixedLogging.Stamp | EasyServer/Log/FixedPropertiesLogger.cs:73-89 | The message and arguments are kept. The caller's member, file and line are blanked exactly when source lines are disabled. |
| FixedLogging.ShouldFormat | EasyServer/Log/FixedPropertiesLogger.cs:165 | Formatting is due exactly when the message is non-null and the arguments are non-null, non-empty and have a non-null first element. |
| FixedLogging.FormattedMessage | EasyServer/Log/FixedPropertiesLogger.cs:164-168 | The message is formatted exactly when it and a non-empty argument list exist and the first argument is not null. Otherwise it is kept verbatim. |
| FixedLogging.MessageLine | EasyServer/Log/FixedPropertiesLogger.cs:169 | The line starts with the formatted message, the exception and the source file, and ends with the bracketed properties. |
| FixedLogging.StateLine | EasyServer/Log/FixedPropertiesLogger.cs:175 | The bracketed properties, a space, then the formatter's text. |
| FixedLogging.SourceLineHidden | EasyServer/Log/FixedPropertiesLogger.cs:75-80 | With source lines disabled, the forwarded line does not depend on the caller's member, file or line. |
| FixedLogging.VerbatimWithoutArguments | EasyServer/Log/FixedPropertiesLogger.cs:165 | Without a usable first argument the formatter is never consulted. |
| FixedLogging.InnerLogger.constructor | EasyServer/Log/FixedPropertiesLogger.cs:25 | A stand-in for the injected inner ILogger, which the cited line receives rather than creates: it starts with nothing received. |
| FixedLogging.FixedPropertiesLogger.Root | EasyServer/Log/FixedPropertiesLogger.cs:42-49 | A root logger has no fixed properties. |
| FixedLogging.FixedPropertiesLogger.Derived | EasyServer/Log/FixedPropertiesLogger.cs:29-40 | A derived logger shares the parent's logger and factory, and has the parent's properties merged with the new pairs. |
| FixedLogging.FixedPropertiesLogger.AddFixedProperties | EasyServer/Log/FixedPropertiesLogger.cs:51-59 | The properties become the old ones merged with the pairs. |
| FixedLogging.FixedPropertiesLogger.WithFixedProperties | EasyServer/Log/FixedPropertiesLogger.cs:61-64 | A fresh derived logger with the merged properties. |
| FixedLogging.FixedPropertiesLogger.IsEnabled | EasyServer/Log/FixedPropertiesLogger.cs:71 | A level is enabled exactly when the wrapped logger enables it. Log and LogWithState forward nothing otherwise. |
| FixedLogging.FixedPropertiesLogger.LogWithState | EasyServer/Log/FixedPropertiesLogger.cs:153-178 | A disabled level forwards nothing. A LoggerMessage forwards its message line, and any other state forwards the state line. |
| FixedLogging.FixedPropertiesLogger.Log | EasyServer/Log/FixedPropertiesLogger.cs:73-91 | A disabled level forwards nothing. Otherwise it forwards the message line of the stamped message at that level. |
| FixedLogging.ExtendingParentLeavesChild | EasyServer/Log/FixedPropertiesLogger.cs:51-59 | Adding properties to a parent after deriving a child leaves the child's properties as they were. |

## Left out

- Concurrency: Enqueue, Dequeue, Exit and the end of a drain turn are each one atomic step, as each runs under the group's lock. Thread-pool scheduling itself is not modelled.
- ActorRuntime.ActorWorkItemGroup.Execute: the drain loop runs outside the lock, but the method is specified as one turn over the queue as it stood at entry. A task enqueued during the turn, including one a running continuation enqueues for itself, is not run in that same turn, and an Exit between two dequeues is not modelled. DrainSpec.SelfRequeueNeverEmpties states on values what such enqueues do: a continuation that always enqueues a follow-up keeps the queue non-empty, so with a quota <= 0 the source's turn never ends.
- ActorRuntime.ActorWorkItemGroup.DrainTurn: the same restriction. It runs exactly TurnLength of the entry queue, with no Enqueue or Exit between its dequeues.
- The clock (`Environment.TickCount64` and the stopwatch) is a parameter. Whether a task runs, is refused or throws is a parameter too. Task bodies are not modelled.
- InvokableProxies.Invoke: an exception from the actor method propagates to the caller, because the code has no try/catch (EasyServer/Core/InvokableProxy.cs:34-39 and :55-59 catch nothing).
- InvokableProxies.Deserialize and Update are modelled as the base classes' empty defaults. The generated overrides are not part of this model.
- Responses.Dispose: disposing the same typed response twice is excluded by a precondition. The pool would otherwise hold it twice.
- The object pool's retention limit is not modelled: every returned object is kept.
- The parameterless `Complete()` of the completion source is not modelled. Only `Complete(value)` is used on the response path.
- The callback's stopwatch and the elapsed-time logging are not modelled.
- `StartsWith` is ordinal. The source's culture-sensitive overload is treated as ordinal.
- Ignore-case comparison of schemes folds ASCII letters only.
- A null element inside a prefix list is not modelled: prefix lists hold strings.
- The constructor lookup and `Activator.CreateInstance` in CreateRegistry and the hot-fix registry are reduced to a flag and a factory. Exceptions thrown by those constructors are not modelled.
- Backoff.ExponentialBackoff.NextDelay: the class uses the corrected exact-arithmetic delay. The 32-bit wrap-around of the attempt counter and of the running total are not modelled. `Math.Pow(2, attempt)` is exact only up to attempt 30, so AsWrittenBaseDelay is stated up to 30.
- etcd I/O (leases, keep-alive, watch setup, `GetAll`, `Put` and reconnection) and UTF-8 decoding of keys and values are not modelled. Watch events arrive as parameters.
- EtcdRegistry.CacheStep: a Delete event's previous key/value is assumed present.
- EtcdRegistry.UpdateIfGreater: the compare-and-swap retry loop runs once, because its location is a local copy with no concurrent writer.
- EtcdRegistry.EtcdServiceRegistry.GetRevision: the prefix key chosen among several candidates depends on the dictionary's enumeration order, which is a nondeterministic choice here.
- WatchCallback's two loops are the methods RecordRevisions and ApplyWatchEvents, and ApplyWatchEvent is the second loop's body. DispatchEvent's loop body is NotifyListener, and the drain loop's body is DrainOne. These are splits of one source method each, not operations of their own.
- ActorRuntime.ActorWorkItemGroup.DrainTurn checks for an exited group before its loop, then makes the one Dequeue call that returns nothing. This is the source's first iteration for that case.
- A listener whose OnEvent throws is still counted as called. Its exception is logged and swallowed, and that log entry is not modelled.
- `string.Format` and the logging formatter are parameters. `Exception.ToString()` is modelled as its message.
- The logger's per-level wrappers (Debug, Info, Warning, Error, including the overloads with up to 17 typed arguments whose first argument is `arg1`) are all covered by `Log`, which takes the level as a parameter.
- `BeginScope` only forwards to the wrapped logger, and the event id is not modelled.
- The logger factory, NLog configuration, the code generators and analyzers, the demo actors, BaseActor and ActorManager are not part of this model.

## Findings

| source | as written | input that shows it | evidently intended | confidence | as-written member | corrected member |
|---|---|---|---|---|---|---|
| EasyServer/Utility/ExponentialBackoff.cs:33 | `initial * (int)Math.Pow(2, attempt)` is computed in 32-bit `int` before the minimum is taken | default delays (1000 ms, 32000 ms), attempt 22: the product wraps to -100663296, so the delay is negative | the delay is capped at the maximum (32000 ms) for every attempt | not executed | Backoff.AsWrittenOverflowsAtAttempt22 | Backoff.BaseDelayBounds |
| EasyServer/Registry/EtcdServiceRegistry.cs:189 | the per-endpoint string built in the loop is overwritten by the scheme plus the whole configured string | connection string "10.0.0.1:2379,10.0.0.2:2379" gives "http://10.0.0.1:2379,10.0.0.2:2379", so the second endpoint has no scheme | every endpoint carries the scheme | not executed | EtcdRegistry.ConnectionStringLosesSecondScheme | EtcdRegistry.CorrectedConnectionString |
