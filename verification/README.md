# A verified model of the online judge back end

This project models, in Dafny, the life of a submission in the C++ online judge: how a request
is admitted, stored, queued, judged and read back, together with the resources this rests on
(the connection pool, the sandbox pipes, the session store and the rate limiter), and proves
what the code guarantees on every input and in every interleaving of its threads.

Objects that the source updates in place are classes (`Trim.TrimOutput` and the loops of
`Judge.Worker` keep the source's loops). Code that several threads run at once is a step system:
one action is one critical section, or one access outside a mutex, and a run is any list of
enabled actions. `ExecutorService.Service` and `CleanupThread.Cleanup` only ever reach states that
their step systems reach; `Judge.Worker` makes exactly the events of the whole system for its task
(`TaskRefinement`), and `Handlers.Server` those for its request (`SubmitRefinement`); the methods of `Sessions.Store` and the calls of `ProblemService` on the
connection pool are proved to be events and steps of theirs.

| file | models |
|---|---|
| `Trim.dfy` | `trim_output` and the comparison it induces |
| `Submissions.dfy`, `TestCases.dfy` | the rows that `update_status` writes and `handle_get_submission` reads; the ordered case query |
| `Judge.dfy`, `SandboxedJudge.dfy` | `judge` and `update_status`; the same with the sandbox under it |
| `Executor.dfy`, `ExecutorService.dfy` | the judge scheduler: queue, mutex, condition variable, workers, shutdown |
| `RateLimiter.dfy` | `check_rate_limit` |
| `Lifecycle.dfy` | the whole submission system with its test cases |
| `Guarantees.dfy`, `ShownCases.dfy`, `Progress.dfy` | its guarantees over every run: rows and verdicts, the shown test case, progress |
| `History.dfy` | the same state told by the list of events alone |
| `TaskRefinement.dfy`, `SubmitRefinement.dfy` | the judge's code for one task, and `handle_submit` for one request, as events of that system |
| `Handlers.dfy` | `handle_submit` and `handle_get_submission` in one thread |
| `Pool.dfy`, `ProblemService.dfy` | the connection pool, its callers, and the nested call of `get_problem_detail` |
| `Sandbox.dfy` | `run_sandbox` as parent and child over bounded pipes |
| `Sessions.dfy`, `CleanupThread.dfy` | session files and their cleanup; the cleanup thread and its shutdown |
| `Encoders.dfy`, `Passwords.dfy`, `Cookies.dfy` | salts, hexadecimal, stored passwords, the session cookie |

## What the proofs show about the code

- A row that got the answer 503 stays PENDING for good (`Guarantees.RefusedStaysPending`), and a
  row also stays behind when its updates are dropped for want of a connection; `PendingIff` and
  `JudgingIff` list all the ways a row can be PENDING or JUDGING. The verdict of a failed case is
  never lost that way, because it travels over the connection already held (`Judge.Arrives`).
- `get_problem_detail` holds one connection and waits, without limit, for a second. With n
  connections, m request threads and at most k failed reconnects a deadlock can be reached
  exactly if m >= 1 and m + k >= n (`Pool.DeadlockReachableIff`), and it never resolves
  (`Pool.DeadlockIsForever`). The judge's workers, which use `try_get` only, are not among the m.
  Without failures a deadlock takes as many simultaneous callers as connections. Once every slot
  is lost to failed reconnects, the next `get` of a single thread waits for good. While fewer
  callers are inside `get_problem_detail` than connections are live, no deadlock is possible
  (`Pool.NoDeadlock`) and every call completes (`Pool.CallsComplete`).
- `run_sandbox` starts its watchdog only after the whole input is written. The parent and the
  child can wait for each other for good exactly when the input is longer than a pipe holds
  (`Sandbox.WedgedReachableIff`). The inputs are TEXT columns of at most 65535 bytes
  (`database/init.sql:31`), so this takes a pipe smaller than the usual 65536 bytes.
- Nothing is read before the child is gone, so a run can come back clean exactly with the outputs
  that fit a pipe (`Sandbox.CapturedIff`), and a child that writes more before it exits always
  ends as TLE (`Sandbox.OverfullIsTimeLimit`). With a time limit that is not negative, a
  problem can be solved at all exactly if every expected output, once trimmed, fits a pipe
  (`SandboxedJudge.SolvableIff`).
- The pipes are made without O_CLOEXEC. A process that another worker forks between `pipe` and
  `close` keeps copies of their ends, and the parent reads on until the last of those processes
  is gone, although its own child is dead. If the input fits the pipe, that is the only thing
  that can keep the parent waiting (`Sandbox.ParentAlwaysReturns`, `Sandbox.OthersKeepWaiting`).
- A call of `judge` can fail to return: by one of those waits, or in `compile`, which reads a pipe
  to its end and waits for the compiler without a wall clock
  (`src/service/executor_service.cc:226-237`). Its row then never gets a verdict
  (`Guarantees.HungKeepsRow`). Every other accepted submission gets its verdict decided in every
  continuation that goes on giving the workers their turns (`Progress.AllDecided`), and the joins
  of `shutdown` return exactly if no call hangs (`Executor.JoinsReturnIff`).
- The repository's own documents promise RE for a child killed by the kernel's memory killer and
  MLE for exceeded memory; the code reports SIGKILL as TLE (`Sandbox.ResultMeaning`), and no row
  ever shows MLE (`Guarantees.StoredVerdictIsSandboxed`). They also promise a full cleanup of the
  session directory above a size threshold; the code has none. The model follows the code in both.
- `ExecutorService::shutdown` clears its flag without the mutex, so its notify can be missed:
  exactly by the workers that have found the wait predicate false and are not asleep yet
  (`Executor.NotifyMissedIff`). Such a worker sleeps on until the one-second timeout, a spurious
  wake-up, or the notify of a later `enqueue` that picks it (`Executor.MissedSleeperStays`). The
  notifies of `enqueue` are never missed: no queued task has to wait for a timeout
  (`Executor.EnqueueIsNoticed`, `Executor.NoTimeoutNeeded`).
  `AuthService::shutdown` sets its flag under the mutex, and its notify cannot be missed
  (`CleanupThread.StopIsPrompt`).
- A request that fails with 404 or 500 has already used up its user's token
  (`Handlers.Server.HandleSubmit`). A problem without test cases accepts every program that
  compiles (`Judge.NoCasesAccepts`).
- The submissions a user gets accepted are a window apart exactly if the window is positive
  (`RateLimiter.SpacedIff`).
- A session is safe from cleanup exactly if its id is not one that is about to be unlinked when it
  is issued (`Sessions.LoginSafeIff`).
- Deleting a test case that sorts before the failed one makes the stored offset show a different
  case (`TestCases.OffsetMovesAfterEarlierDelete`). A cookie whose name ends in `session_id`
  and comes first hides the session (`Cookies.ReadsBackIff`).

## Model

| member | source | states |
|---|---|---|
| Trim.TrimOutput | src/service/executor_service.cc:481-506 | the nested loops give exactly: split on newlines, strip spaces and tabs from each line, drop trailing empty lines, join; pops never exceed pushes, which never exceed the length of the text |
| Trim.SplitAtNewline | src/service/executor_service.cc:486-499 | lines end at the newline character and at nothing else |
| Trim.StripIs | src/service/executor_service.cc:487-494 | what a line loses are exactly the spaces and tabs at its two ends |
| Trim.NormalizeLines | src/service/executor_service.cc:486-505 | the trimmed text has the stripped lines up to the last one that is not blank, in order |
| Trim.NormalizeNotLonger | src/service/executor_service.cc:481-506 | trimming never makes a text longer |
| Trim.NormalizeEqualIff | src/service/executor_service.cc:171 | two outputs compare equal exactly when they agree line by line after stripping, missing trailing lines counting as empty |
| Trim.NormalizeIdempotent | src/service/executor_service.cc:481-506 | trimming a trimmed text changes nothing |
| Trim.PaddingIgnored | src/service/executor_service.cc:481-506 | blanks at the edges of any lines and any number of extra final newlines never change the comparison |
| Submissions.FirstVerdictReadsBack | src/service/executor_service.cc:449-469 | the first verdict written to a row reads back as exactly the tuple sent, skipped zero and empty columns included, whether or not the JUDGING update arrived |
| Submissions.ColumnsByName | src/service/executor_service.cc:449-467 | each argument of a first verdict is stored in the column of its name, zero and empty as NULL, and each field of the answer is read from its column |
| TestCases.PositionIsRank | src/service/executor_service.cc:121-123 | a case's position in the ordered query is the number of cases with a smaller (sort_order, id) |
| TestCases.ListingIs | src/service/executor_service.cc:121-123 | the query lists exactly the problem's cases, ascending by sort_order and then by id |
| TestCases.ListingUnique | src/service/executor_service.cc:121-123 | the ordered query has only one possible answer |
| TestCases.ListingExists | src/service/executor_service.cc:121-123 | and it always has one |
| TestCases.OffsetStableIff | src/handler/submit_handler.cc:175-193 | looking the failed case up by offset later finds the same case if and only if it still exists and has as many cases before it |
| TestCases.OffsetStableUnderLaterEdits | src/handler/submit_handler.cc:175-193 | adding or deleting cases with larger keys, or of other problems, never changes the case shown |
| TestCases.OffsetMovesAfterEarlierDelete | src/handler/submit_handler.cc:175-193 | after an earlier case is deleted the offset never shows the case that failed |
| Judge.Worker.UpdateStatus | src/service/executor_service.cc:437-479 | one attempt is logged; the row changes exactly when a connection was provided or free and the query succeeds; a provided connection means no other is taken |
| Judge.Worker.JudgeCases | src/service/executor_service.cc:140-183 | the verdict is the declarative one: AC with the maxima of time and memory if all cases pass, else status, index, time and memory of the first failing case; exactly one update is attempted, and the connection is given back |
| Judge.Worker.Judge | src/service/executor_service.cc:88-186 | unless the sandbox directory cannot be created, exactly one, and the right, verdict is attempted whatever goes wrong; the directory is removed unless that throws; never are two connections held |
| Judge.Worker.Process | src/service/executor_service.cc:83-84 | mark then judge: two attempts in this order, or one if the sandbox directory cannot be created; a verdict that arrives at a fresh row reads back exactly |
| Judge.OutcomeUnique | src/service/executor_service.cc:88-186 | the declarative meaning leaves exactly one outcome |
| Judge.FailureIs | src/service/executor_service.cc:156-175 | with a failed case all earlier cases passed, and the status is RE for code -1, TLE for 1, MLE for 2 and else WA, with the time, memory and error text of that case |
| Judge.NoFailureIs | src/service/executor_service.cc:96-138 | without a failed case the status is CE exactly if the program did not compile, RE with its message exactly if it could not be written or the cases not read, and else AC with the largest time and memory |
| Judge.OutcomeIsVerdict | src/service/executor_service.cc:159-183 | every outcome is a final status with non-negative numbers, and MLE needs a sandbox that returns 2 |
| Judge.NoCasesAccepts | src/service/executor_service.cc:140-183 | zero test cases give AC with empty columns |
| Executor.RunsKeepInv | src/service/executor_service.cc:57-91 | every step of every interleaving keeps mutual exclusion, first-in-first-out order, the queue bound and task ownership |
| Executor.EveryRunIsSafe | src/service/executor_service.cc:57-91 | from start-up, in every interleaving: accepted tasks are the taken ones followed by the queue, the queue has at most max_queue tasks, a negative value counting from 2^64 down, no task is taken twice, one worker at most is in a critical section, and no two workers share a submission id and so a sandbox directory |
| Executor.AtMostOneTakenAfterStop | src/service/executor_service.cc:49-86 | once running_ is false at most one more task is dequeued, by all workers together |
| Executor.TakenAfterStopIff | src/service/executor_service.cc:79-81 | one more can be dequeued exactly when some worker is between its test and its pop |
| Executor.StopBound | src/service/executor_service.cc:49-86 | after the store no schedule gives any worker more than six steps, notified or not |
| Executor.JoinsReturnIff | src/service/executor_service.cc:52-54 | when the workers have come to rest after the store, all have exited exactly if no call of judge was hanging or came to hang |
| Executor.NotifyMissedIff | src/service/executor_service.cc:50-51 | a worker can be asleep after notify_all exactly if it was past the wait predicate and not yet asleep at the notify |
| Executor.MissedSleeperStays | src/service/executor_service.cc:76-78 | nothing but its timeout, a spurious wake-up or a notify that picks it ends its sleep |
| Executor.EnqueueIsNoticed | src/service/executor_service.cc:61-67 | while the service runs and a worker sleeps there are never more queued tasks than awake workers and notifies on their way |
| Executor.NoTimeoutNeeded | src/service/executor_service.cc:67-78 | while tasks are queued and not all workers hang, a notify can be delivered or a worker that is not asleep can move |
| Executor.RacesReachable | src/service/executor_service.cc:49-82 | both races happen from start-up, with any number of workers and for each of them |
| Executor.TaskProgress | src/service/executor_service.cc:71-86 | no worker step adds work, and each pop, mark, judge and clean step removes one unit of it |
| Executor.QueueDrains | src/service/executor_service.cc:71-86 | while running without new submissions every schedule with enough worker steps empties the queue, even while calls of judge hang; neither fairness nor notifies are needed |
| Executor.AllTasksFinish | src/service/executor_service.cc:71-86 | every schedule in which the workers take enough steps together and then each one that does not hang gets three turns leaves the queue empty and only hanging tasks unfinished; none exactly if no call of judge hangs |
| Executor.WorkCanFinishIff | src/service/executor_service.cc:71-86 | from every good running state the workers can finish all accepted work exactly if none of them hangs |
| Executor.NoWorkLeftIff | src/service/executor_service.cc:71-86 | the measure is zero exactly when every accepted task is taken and no worker has one |
| ExecutorService.Service.constructor | src/service/executor_service.cc:34-47 | at least one worker is started, on an empty queue |
| ExecutorService.Service.Enqueue | src/service/executor_service.cc:57-69 | says yes exactly when the queue has fewer than max_queue tasks, and then appends the task and wakes one sleeper if there is any; else nothing changes |
| ExecutorService.Service.Iterate | src/service/executor_service.cc:72-85 | one iteration of worker_loop, whatever others submit or stop during its sleeps, is a run of the step system: a waiting task is the one taken and without sleeping; the worker comes back empty-handed only from an empty queue or a stopped service; it ends the loop exactly when stopped at its top |
| ExecutorService.Service.Shutdown | src/service/executor_service.cc:49-51 | the flag is clear and exactly the sleeping workers are woken |
| RateLimiter.Limiter.Check | src/service/auth_service.cc:353-367 | answers and updates the table as specified |
| RateLimiter.AllowedIff | src/service/auth_service.cc:353-367 | for a positive window in seconds a call is accepted exactly when its reading in nanoseconds lies at least the window after every earlier accepted call of the user, in whatever order the readings arrive |
| RateLimiter.AllowedByLatest | src/service/auth_service.cc:357-362 | for any window, the exact difference to the latest grant from which a call is accepted |
| RateLimiter.GrantsInv | src/service/auth_service.cc:353-367 | accepted calls of one user are pairwise at least the window apart |
| RateLimiter.GrantsPerInterval | src/service/auth_service.cc:353-367 | at most length / window + 1 are accepted in any interval |
| RateLimiter.UsersIndependent | src/service/auth_service.cc:353-367 | a user's grants and table entry are those of a run with only that user's calls |
| RateLimiter.SpacedIff | src/service/auth_service.cc:359-362 | accepted calls of one user are a window apart in every run exactly if the window is positive |
| Lifecycle.RunGood | src/handler/submit_handler.cc:65-112 | every step of the submission system keeps the correspondence of tokens, requests, rows, tasks and attempted updates |
| History.RequestsAreSubmits | src/handler/submit_handler.cc:31-75 | over every run the k-th request has the user, problem and program of the k-th granted submission |
| History.RowIsSubmitted | src/handler/submit_handler.cc:86-99 | every row has the user, problem and program of a granted submission, each of a different one |
| History.AbortedHasNoRow | src/handler/submit_handler.cc:72-97 | a request answered with 404 or 500 never has a row |
| History.TaskIsSubmitted | src/handler/submit_handler.cc:102-106 | a worker judges the submitted program for its problem under the limits that the request gave to enqueue |
| History.JudgedAsSubmitted | src/service/executor_service.cc:88-154 | a verdict is decided on answers about the submitted program, under the time limit that its request gave to enqueue |
| History.TestsAreHistory | src/service/problem_service.cc:251-291 | the test cases are those added and not deleted since |
| History.RunningIsHistory | src/service/executor_service.cc:49-51 | the service runs exactly until its shutdown |
| History.StatusIsHistory | src/service/executor_service.cc:437-477 | a row shows the verdict that was sent for it and arrived, else JUDGING if that update arrived, else PENDING |
| SubmitRefinement.SubmitRequest | src/handler/submit_handler.cc:31-119 | the handler's code makes exactly the events of its request in the whole system, with the same rows, queue and limiter table |
| Guarantees.StatusNeverGoesBack | src/service/executor_service.cc:80-186 | over any run PENDING < JUDGING < verdict never decreases and a verdict row never changes, whatever updates are dropped |
| Guarantees.StoredVerdictIsJudged | src/handler/submit_handler.cc:160-170 | a row shows a verdict exactly when judge's update arrived, and reads back the right outcome for its own program, run in the sandbox on the cases judge's query found |
| Guarantees.StoredVerdictIsSandboxed | src/service/executor_service.cc:153-175 | no row shows MLE, and AC only if every case ran to a clean exit with the expected lines and no more output than a pipe holds |
| ShownCases.DecidedOnOwnTable | src/service/executor_service.cc:121-123 | the cases a verdict was decided on are the ordered listing of the problem in the system's own table at one moment of the run, the worker's query |
| ShownCases.FailedCaseShown | src/handler/submit_handler.cc:175-193 | the case shown to the user is the first one the program failed on, if every case of the problem added or deleted since judge's query sorts after it |
| ShownCases.ShowsFailureIff | src/handler/submit_handler.cc:181-193 | a row with a verdict names a failed case exactly when one of judge's cases failed |
| Guarantees.PendingIff | src/handler/submit_handler.cc:86-112 | a row is PENDING exactly when it is not accepted yet, refused, queued, about to be marked, or had every update dropped |
| Guarantees.JudgingIff | src/service/executor_service.cc:83-84 | a row is JUDGING exactly when its first update arrived and a worker is inside judge with it or the verdict was dropped |
| Guarantees.HungKeepsRow | src/service/executor_service.cc:226-237 | a row whose call of judge hangs keeps its status in every continuation and never gets a verdict |
| Guarantees.RefusedStaysPending | src/handler/submit_handler.cc:108-112 | a row answered with 503 stays PENDING in every continuation |
| Guarantees.SubmissionsAccounted | src/handler/submit_handler.cc:65-112 | rows = taken + queued + refused + between insert and enqueue, and no user has more rows than granted tokens |
| Guarantees.WorkersJudgeSubmittedCode | src/service/executor_service.cc:80-91 | a worker judges the code, problem and user of the row, and no two workers share a submission |
| Progress.DecidedIff | src/service/executor_service.cc:80-86 | the verdict of a submission answered with 202 has been decided exactly when it is not queued, about to be marked, or inside judge |
| Progress.AllDecided | src/service/executor_service.cc:71-86 | in every continuation in which the workers take enough steps together and then three turns each, every submission answered with 202 is decided unless its call of judge hangs |
| Progress.AcceptedAreDecided | src/service/executor_service.cc:80-86 | when no work is left every submission answered with 202 has had its verdict decided |
| TaskRefinement.ProcessTask | src/service/executor_service.cc:83-84 | marking and judging on the table makes exactly the events Mark, Select and Decide of the whole system, with the same rows and attempts |
| TaskRefinement.MarkThenDecide | src/service/executor_service.cc:83-84 | a worker with a taken task can mark it, query the cases, and decide it with every right outcome |
| SandboxedJudge.SandboxedOutcome | src/service/executor_service.cc:153-175 | over the sandbox no outcome is MLE, and AC and WA need clean exits with outputs that fit a pipe |
| SandboxedJudge.FailureByEnd | src/service/executor_service.cc:159-175 | with a failed case, TLE means the run ended by the watchdog or by signal 9 or 24, RE that it could not start, exited with a non-zero code or died of another signal, WA that it exited with code 0, and each end gives that status |
| SandboxedJudge.SolvableIff | src/service/executor_service.cc:171 | some run of some program is accepted exactly if every expected output, once trimmed, fits a pipe |
| Handlers.Server.HandleSubmit | src/handler/submit_handler.cc:31-119 | exactly when each of 401, 400, 413, 429, 404, 500 and 503 is answered, and that a row exists exactly for 202 and 503, a task exactly for 202, and the token is used whenever the limiter is reached |
| Handlers.Server.HandleGetSubmission | src/handler/submit_handler.cc:121-199 | only the owner sees a row, as it reads back, with the case of its problem that has failed_case - 1 cases before it when there is a failed case |
| Pool.ConnectionPool.constructor | src/db/connection_pool.cc:14-34 | stops at the first connection that cannot be made |
| Pool.ConnectionPool.Take | src/db/connection_pool.cc:41-49 | takes the last idle connection, replaces a dead one, or returns null and loses the slot |
| Pool.ConnectionPool.TryGet | src/db/connection_pool.cc:52-70 | null and no change when nothing was released in time, else as get |
| Pool.ConnectionPool.Release | src/db/connection_pool.cc:72-76 | puts the connection back last |
| Pool.PoolConserved | src/db/connection_pool.cc:36-76 | over every run idle and held connections are duplicate-free and disjoint, and idle + held + lost is the pool size |
| Pool.ReceivedConnection | src/db/connection_pool.cc:41-49 | a connection that answers the ping is handed out itself; a dead one is nowhere open afterwards, and its replacement has never been open before, or the caller gets none |
| Pool.DeadlockShape | src/service/problem_service.cc:74-113 | a deadlock is exactly an empty pool with every active caller waiting in get, and then each live connection is held by a get_problem_detail that waits for its second |
| Pool.NoDeadlock | src/service/problem_service.cc:74-113 | with fewer callers of get_problem_detail than live connections no state is deadlocked |
| Pool.CallsComplete | src/service/problem_service.cc:74-113 | and then, without new calls or failed reconnects, every call completes in a bounded number of steps |
| Pool.DeadlockReachableIff | src/db/connection_pool.cc:36-50 | with n connections, m request threads and at most k failed reconnects a deadlock is reachable exactly if m >= 1 and m + k >= n |
| Pool.DeadlockIsForever | src/db/connection_pool.cc:36-40 | in a deadlock no waiting thread ever moves again, whatever others do |
| ProblemService.GetTestcases | src/service/problem_service.cc:209-249 | lists the cases asked for in order, gives its connection back on every path, and takes only steps of the pool's callers |
| ProblemService.GetProblemDetail | src/service/problem_service.cc:74-113 | waits forever exactly when the pool is empty or its last connection was used to find the problem; otherwise no connection is leaked; its steps are those of a detail caller |
| ProblemService.SamplesAreListed | src/service/problem_service.cc:215-222 | the samples of the ordered listing are the ordered listing of the samples |
| Sandbox.ResultMeaning | src/service/executor_service.cc:376-434 | in every interleaving the code is -1, 0 or 1; 0 exactly for a clean exit seen before the watchdog, with exactly the bytes written to stdout; 1 exactly for the watchdog, SIGKILL or SIGXCPU; -1 with the message for its signal or exit code |
| Sandbox.WatchdogIff | src/service/executor_service.cc:373-385 | the watchdog ends a run exactly if some poll reads the clock one second past the time limit or later |
| Sandbox.PollsTenApart | src/service/executor_service.cc:376-391 | before that the next poll comes ten milliseconds later or at any later time |
| Sandbox.DecimalIs | src/service/executor_service.cc:421-429 | numbers in messages are written in decimal |
| Sandbox.CapturedIff | src/service/executor_service.cc:400-434 | a text can come back with code 0 exactly if it fits a pipe and the time limit is not negative |
| Sandbox.InputArrives | src/service/executor_service.cc:364-367 | the child reads the input from its beginning, in order and without a gap, and as long as it lives nothing of the rest is lost |
| Sandbox.FittingNeverBlocks | src/service/executor_service.cc:364-367 | if the input, and what the child asks to write, fit the pipes, neither process waits on a write |
| Sandbox.OverfullIsTimeLimit | src/service/executor_service.cc:376-419 | a child that exits only after writing more than a pipe holds always yields TLE |
| Sandbox.ParentAlwaysReturns | src/service/executor_service.cc:364-434 | if the input fits, the parent takes a bounded number of steps, at most one poll per ten milliseconds of the limit and one more, and has returned or can take the next exactly while it does not wait for another process that holds a pipe end |
| Sandbox.OthersKeepWaiting | src/service/executor_service.cc:403-413 | that wait lasts as long as such a process does, whatever else happens |
| Sandbox.WedgedReachableIff | src/service/executor_service.cc:364-367 | both processes can block each other before the watchdog starts if and only if the input exceeds the pipe |
| Sandbox.Supervise | src/service/executor_service.cc:369-434 | the poll loop fires at the first reading at or past the limit, unless the child was reaped first, and polls at most once per ten milliseconds of it |
| Sandbox.ReadAll | src/service/executor_service.cc:400-413 | the read loop collects exactly the pipe's contents |
| Sessions.Store.Login | src/service/auth_service.cc:286-313 | the session file expires 86400 seconds after login; without an id or a writable file the answer is empty and nothing changes |
| Sessions.Store.Logout | src/service/auth_service.cc:315-323 | removes exactly that session |
| Sessions.Store.Authenticate | src/service/auth_service.cc:325-351 | answers an unexpired session and unlinks an expired one |
| Sessions.Store.CleanupExpired | src/service/auth_service.cc:369-401 | removes exactly the listed session files that do not parse or whose time is before the clock when read, as a run of reads and unlinks |
| Sessions.CleanupInvisible | src/service/auth_service.cc:292-401 | cleanup passes and lazy unlinks anywhere in a run never change an answer of authenticate: it is that of a plain map that only logout shrinks |
| Sessions.LoginLastsADay | src/service/auth_service.cc:292-300 | on that map a login answers until exactly 86400 seconds later unless logged out |
| Sessions.LoginSafeIff | src/service/auth_service.cc:395-396 | after a login every answer in every continuation is right exactly if no unlink of its id is still to come |
| CleanupThread.Cleanup.constructor | src/service/auth_service.cc:54-55 | the thread starts with the flag clear |
| CleanupThread.Cleanup.Iterate | src/service/auth_service.cc:407-413 | one iteration of cleanup_loop ends the thread exactly when the flag is set at its top or during its wait, without another pass; else it passes once |
| CleanupThread.Cleanup.Shutdown | src/service/auth_service.cc:61-66 | the flag is set and nobody waits any more |
| CleanupThread.StopIsPrompt | src/service/auth_service.cc:61-70 | in every interleaving no wait begins once the flag is set, nobody waits after the notify, and at most one more pass begins |
| CleanupThread.JoinReturns | src/service/auth_service.cc:403-414 | after the flag the thread takes at most four more steps and is never kept from the next, so join returns |
| Encoders.MakeSalt | src/service/auth_service.cc:121-154 | for any number of bytes the loop emits the prefix and the six-bit digits of the bytes, within its buffer; 29 characters for 16 bytes |
| Encoders.DigitsRoundTrip | src/service/auth_service.cc:134-151 | n bytes give ceil(8n/6) digits from which they can be read back |
| Encoders.DigitsHoldBits | src/service/auth_service.cc:134-151 | the six-bit digits hold the bits of the bytes in order, the highest first, filled up with zeros |
| Encoders.AlphabetIs | src/service/auth_service.cc:122-124 | the alphabet is point, slash, A-Z, a-z, 0-9 |
| Encoders.SaltInjective | src/service/auth_service.cc:121-154 | different random bytes give different salts |
| Encoders.ToHex | src/service/auth_service.cc:72-80 | two hexadecimal characters per byte, high half first |
| Encoders.HexIs | src/service/auth_service.cc:72-80 | a byte is written as its number to the base 16 in lower case |
| Encoders.HexRoundTrip | src/service/auth_service.cc:107-110 | reading the pairs back with stoi gives the bytes again |
| Passwords.Sha256Hash | src/service/auth_service.cc:82-96 | the stored form of a salted digest, or nothing without randomness |
| Passwords.VerifySha256 | src/service/auth_service.cc:98-119 | for any stored text: rejects a wrong shape, throws on an unreadable salt, else accepts exactly an equal digest |
| Passwords.VerifyIff | src/service/auth_service.cc:82-119 | a stored password verifies exactly with the passwords of equal salted digest, for every salt and digest function |
| Cookies.FirstOccurrence | src/handler/auth_handler.cc:18 | the search finds the id placed after a prefix if and only if the prefix does not contain the pattern |
| Cookies.CookieRoundTrip | src/handler/auth_handler.cc:16-27 | any id without a semicolon comes back unchanged after such a prefix, whatever follows a semicolon |
| Cookies.LoginCookieReadsBack | src/handler/auth_handler.cc:101-112 | the id of a login comes back from every such Cookie header (section 4.2.1 of RFC 6265) and the logout cookie reads as none |
| Cookies.ReadsBackIff | src/handler/auth_handler.cc:16-27 | after a prefix every login's id is read back exactly if the prefix does not contain the pattern, be it at the end of a longer cookie name |

## Assumptions

- Run times and memory readings are not negative. The wall clock of sessions does not go back.
- Login never draws a session id that is about to be unlinked, and the session file appears with its content in one step.
- MySQL answers every query in the end; of the calls a worker makes, only `judge` may not return.
- Processes that inherit copies of a sandbox's pipe ends neither read nor write them.
- SIGPIPE is ignored in the server process; the HTTP library, which sets this, is not part of this model.
- Submission ids come from AUTO_INCREMENT and are numbered here from 0 in insertion order.

## Left out

- The MySQL client, SQL text and escaping: tables are maps, sequences and sets, ordered queries are sorted sequences, and every query may fail.
- Real `fork`, `exec`, seccomp, rlimits and g++: the child is any sequence of reads, writes, exit and signals, and the compile result is arbitrary; where `pipe` or `fork` fail, only the code -1 without a text is modelled.
- SHA-256, bcrypt and `/dev/urandom`: a digest is a function parameter, random bytes are inputs.
- The memory reading of `getrusage` is an arbitrary number; the descriptors left open on the watchdog's path are not counted.
- HTTP routing, JSON parsing, configuration, logging, signal handling, role checks, the pass-rate query, problem CRUD and the front end.
- Path resolution of session file names: a session id is the file's name, so spellings of the same path are not identified.
- Integer widths: times, limits and ids are unbounded, except that a negative `max_queue` wraps to size_t as in the source.
- Trim.TrimOutput: characters are bytes of the output; a carriage return counts as an ordinary character, as in the source.
- Judge.Worker.Judge: an exception of `create_directories` or `remove_all` leaves the thread and ends the process; the models of whole runs do not go on from there.
- Judge.Worker.Process: when a worker runs is left to `Lifecycle`, where the updates of all workers interleave.
- Handlers.Server.HandleSubmit: one request at a time with the mutex free; interleavings of many requests are in `Lifecycle`.
- ExecutorService.Service.Iterate: other workers do not move during the iteration; all interleavings are in `Executor`.
- Sessions.Store.Authenticate: reading and unlinking come one right after the other in the class; any other steps may come between them in the step system of the same module.
