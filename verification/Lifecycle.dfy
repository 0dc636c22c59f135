// The life of submissions, from request to stored verdict: request threads running
// handle_submit, the scheduler, the judge's two updates and the submissions table, as one
// step system. Ids are AUTO_INCREMENT values, modelled as positions in insertion order.
module Lifecycle {
  import opened Common
  import opened Submissions
  import opened RateLimiter
  import opened Judge
  import opened SandboxedJudge
  import opened E = Executor
  import opened TestCases

  // How far one request that got a rate-limit token has come.
  datatype Progress =
    | Admitted                      // token granted, nothing inserted yet
    | GaveUp                        // 404 or 500 before a row existed
    | HasRow(id: nat)               // row inserted, enqueue not called yet
    | Queued(id: nat, place: nat)   // enqueue said yes (202); place in the accepted order
    | Refused(id: nat)              // queue full (503)

  datatype Request = Request(userId: int, problemId: int, code: string, progress: Progress)

  // History of one row: the request that inserted it, the worker that took it, and the
  // updates attempted for it with whether each one arrived. A verdict comes with the world's
  // answers it was decided on. table is the testcases table as judge's query found it.
  datatype Phase =
    | Untouched
    | Marked(markArrived: bool)
    | Decided(markArrived: bool, world: World, verdict: Update, verdictArrived: bool)

  datatype Trace = Trace(origin: nat, worker: nat, phase: Phase, table: Option<set<TestCase>>)

  // pipe is the most that a pipe of the sandbox holds.
  datatype State = State(exec: E.State, window: int, pipe: nat, calls: seq<Call>, requests: seq<Request>,
                         rows: seq<Row>, log: seq<Trace>, tests: set<TestCase>)

  datatype Event =
    | Submit(userId: int, problemId: int, code: string, now: int)         // check_rate_limit
    | Abort(r: nat)                                                       // 404 or 500
    | Insert(r: nat)                                                      // the INSERT commits
    | Offer(r: nat, timeLimit: int, memoryLimit: int)                     // enqueue
    | Move(w: nat, timedOut: bool)                                        // worker steps that write nothing
    | Mark(w: nat, arrived: bool)                                         // update_status(..., "JUDGING")
    | Select(w: nat)                                                      // judge's query of the test cases
    | Decide(w: nat, world: World, verdict: Update, arrived: bool)        // judge's verdict update
    | Hang(w: nat)                                                        // judge never gets there
    | Deliver(w: nat)                                                     // the notify of an enqueue
    | AddCase(testCase: TestCase)
    | DeleteCase(testCase: TestCase)
    | Shutdown
    | Notify

  function Start(maxQueue: int, workerThreads: int, window: int, pipe: nat): State {
    State.State(E.Start(maxQueue, workerThreads), window, pipe, [], [], [], [], {})
  }

  // The answers are about this task, the table its query found, and runs in the sandbox.
  ghost predicate Concerns(world: World, task: SubmitTask, table: Option<set<TestCase>>, pipe: nat)
    requires world.Valid()
  {
    world.About(task.code, task.problemId, table) && world.timeLimit == task.timeLimit && Sandboxed(world, pipe)
  }

  function TableOf(log: seq<Trace>, id: nat): Option<set<TestCase>> {
    if id < |log| then log[id].table else None
  }

  ghost predicate Ready(s: State, e: Event) {
    match e
    case Submit(u, p, code, _) => u > 0 && p > 0 && code != ""
    case Abort(r) => r < |s.requests| && s.requests[r].progress == Admitted
    case Insert(r) => r < |s.requests| && s.requests[r].progress == Admitted
    case Offer(r, _, _) => r < |s.requests| && s.requests[r].progress.HasRow? && s.exec.holder.None?
    case Move(w, _) => CanWork(s.exec, w) && !s.exec.workers[w].Marking? && !s.exec.workers[w].Judging?
    case Mark(w, _) => w < |s.exec.workers| && s.exec.workers[w].Marking?
    case Select(w) =>
      w < |s.exec.workers| && s.exec.workers[w].Judging? && TableOf(s.log, s.exec.workers[w].task.submissionId).None?
    case Decide(w, world, verdict, _) =>
      && w < |s.exec.workers| && s.exec.workers[w].Judging? && world.Valid() && RightOutcome(world, verdict)
      && Concerns(world, s.exec.workers[w].task, TableOf(s.log, s.exec.workers[w].task.submissionId), s.pipe)
    case Hang(w) => w < |s.exec.workers| && s.exec.workers[w].Judging?
    case Deliver(w) => Enabled(s.exec, NotifyOne(w))
    case AddCase(c) => forall d :: d in s.tests ==> d.id != c.id
    case DeleteCase(c) => c in s.tests
    case Shutdown => true
    case Notify => !s.exec.running
  }

  function Report(row: Row, u: Update, arrived: bool): Row { if arrived then Written(row, u) else row }

  function SetProgress(s: State, r: nat, p: Progress): State
    requires r < |s.requests|
  {
    s.(requests := s.requests[r := s.requests[r].(progress := p)])
  }

  // No effect when the update does not arrive or there is no such row.
  function UpdateRow(rows: seq<Row>, id: nat, u: Update, arrived: bool): seq<Row> {
    if id < |rows| then rows[id := Report(rows[id], u, arrived)] else rows
  }

  function SetPhase(log: seq<Trace>, id: nat, phase: Phase): seq<Trace> {
    if id < |log| then log[id := log[id].(phase := phase)] else log
  }

  function SetWorker(log: seq<Trace>, id: nat, worker: nat): seq<Trace> {
    if id < |log| then log[id := log[id].(worker := worker)] else log
  }

  function SetTable(log: seq<Trace>, id: nat, table: set<TestCase>): seq<Trace> {
    if id < |log| then log[id := log[id].(table := Some(table))] else log
  }

  function MarkArrived(log: seq<Trace>, id: nat): bool {
    id < |log| && !log[id].phase.Untouched? && log[id].phase.markArrived
  }

  // The executor action behind an event, if any.
  function ActionOf(s: State, e: Event): Option<Action> {
    match e
    case Offer(r, t, m) =>
      if r < |s.requests| && s.requests[r].progress.HasRow? then Some(Enqueue(TaskOf(s.requests[r], t, m))) else None
    case Move(w, timedOut) => Some(Work(w, timedOut))
    case Mark(w, _) => Some(Work(w, false))
    case Decide(w, _, _, _) => Some(Work(w, false))
    case Deliver(w) => Some(NotifyOne(w))
    case Hang(w) => Some(E.Hang(w))
    case Shutdown => Some(StopStore)
    case Notify => Some(NotifyAll)
    case _ => None
  }

  function TaskOf(q: Request, timeLimit: int, memoryLimit: int): SubmitTask
    requires q.progress.HasRow?
  {
    SubmitTask(q.progress.id, q.problemId, q.userId, q.code, timeLimit, memoryLimit)
  }

  ghost function Next(s: State, e: Event): State
    requires Ready(s, e)
  {
    match e
    case Submit(u, p, code, now) =>
      var granted := Allowed(LastAfter(s.calls, s.window), Call(u, now), s.window);
      s.(calls := s.calls + [Call(u, now)],
         requests := if granted then s.requests + [Request(u, p, code, Admitted)] else s.requests)
    case Abort(r) => SetProgress(s, r, GaveUp)
    case Insert(r) =>
      var q := s.requests[r];
      SetProgress(s, r, HasRow(|s.rows|)).(
        rows := s.rows + [NewRow(q.userId, q.problemId, q.code)],
        log := s.log + [Trace(r, 0, Untouched, None)])
    case Offer(r, timeLimit, memoryLimit) =>
      var q := s.requests[r];
      if |s.exec.queue| >= s.exec.capacity then SetProgress(s, r, Refused(q.progress.id))
      else SetProgress(s, r, Queued(q.progress.id, |s.exec.accepted|)).(
             exec := TryEnqueue(s.exec, TaskOf(q, timeLimit, memoryLimit)))
    case Move(w, timedOut) =>
      s.(exec := WorkStep(s.exec, w, timedOut),
         log := if s.exec.workers[w].Popping? && s.exec.queue != []
                then SetWorker(s.log, s.exec.queue[0].submissionId, w) else s.log)
    case Mark(w, arrived) =>
      var id := s.exec.workers[w].task.submissionId;
      s.(exec := WorkStep(s.exec, w, false),
         rows := UpdateRow(s.rows, id, MARK_JUDGING, arrived),
         log := SetPhase(s.log, id, Marked(arrived)))
    case Select(w) => s.(log := SetTable(s.log, s.exec.workers[w].task.submissionId, s.tests))
    case Decide(w, world, verdict, arrived) =>
      var id := s.exec.workers[w].task.submissionId;
      s.(exec := WorkStep(s.exec, w, false),
         rows := UpdateRow(s.rows, id, verdict, arrived),
         log := SetPhase(s.log, id, Decided(MarkArrived(s.log, id), world, verdict, arrived)))
    case Hang(w) => s.(exec := Goto(s.exec, w, Hanging(s.exec.workers[w].task)))
    case Deliver(w) => s.(exec := Apply(s.exec, NotifyOne(w)))
    case AddCase(c) => s.(tests := s.tests + {c})
    case DeleteCase(c) => s.(tests := s.tests - {c})
    case Shutdown => s.(exec := s.exec.(running := false))
    case Notify => s.(exec := s.exec.(workers := WakeAll(s.exec.workers)))
  }

  ghost predicate Possible(s: State, events: seq<Event>)
    decreases |events|
  {
    events == [] || (Ready(s, events[0]) && Possible(Next(s, events[0]), events[1..]))
  }

  ghost function Outcome(s: State, events: seq<Event>): State
    requires Possible(s, events)
    decreases |events|
  {
    if events == [] then s else Outcome(Next(s, events[0]), events[1..])
  }

  // ---- The invariant ----

  function IdOf(p: Progress): Option<nat> {
    match p
    case Admitted => None
    case GaveUp => None
    case HasRow(id) => Some(id)
    case Queued(id, _) => Some(id)
    case Refused(id) => Some(id)
  }

  // The row that the request and the updates attempted so far must have produced.
  function Expected(q: Request, phase: Phase): Row {
    var row := NewRow(q.userId, q.problemId, q.code);
    match phase
    case Untouched => row
    case Marked(m) => Report(row, MARK_JUDGING, m)
    case Decided(m, _, verdict, v) => Report(Report(row, MARK_JUDGING, m), verdict, v)
  }

  // A decided verdict is the right one for the submitted program, run in the sandbox on the cases
  // its problem had when judge asked for them.
  ghost predicate GoodPhase(pipe: nat, q: Request, phase: Phase, table: Option<set<TestCase>>) {
    phase.Decided? ==>
      phase.world.Valid() && RightOutcome(phase.world, phase.verdict)
      && phase.world.About(q.code, q.problemId, table) && Sandboxed(phase.world, pipe)
  }

  // Rows and requests with a row correspond one to one, and every row is what its request and
  // its attempted updates make of it.
  ghost predicate RowsInv(pipe: nat, requests: seq<Request>, rows: seq<Row>, log: seq<Trace>) {
    && |log| == |rows|
    && (forall id :: 0 <= id < |rows| ==>
          && log[id].origin < |requests|
          && IdOf(requests[log[id].origin].progress) == Some(id)
          && GoodPhase(pipe, requests[log[id].origin], log[id].phase, log[id].table)
          && (log[id].phase.Untouched? ==> log[id].table.None?)
          && rows[id] == Expected(requests[log[id].origin], log[id].phase))
    && (forall r :: 0 <= r < |requests| && IdOf(requests[r].progress).Some? ==>
          && IdOf(requests[r].progress).value < |rows|
          && log[IdOf(requests[r].progress).value].origin == r)
  }

  predicate Carries(task: SubmitTask, q: Request) {
    && IdOf(q.progress) == Some(task.submissionId)
    && task.problemId == q.problemId && task.userId == q.userId && task.code == q.code
  }

  // Accepted tasks and requests answered with 202 correspond one to one, and a task carries
  // exactly what its request submitted.
  ghost predicate AcceptedInv(requests: seq<Request>, log: seq<Trace>, accepted: seq<SubmitTask>) {
    && (forall r :: 0 <= r < |requests| && requests[r].progress.Queued? ==>
          && requests[r].progress.place < |accepted|
          && Carries(accepted[requests[r].progress.place], requests[r]))
    && (forall k :: 0 <= k < |accepted| ==>
          && accepted[k].submissionId < |log|
          && log[accepted[k].submissionId].origin < |requests|
          && requests[log[accepted[k].submissionId].origin].progress == Queued(accepted[k].submissionId, k))
  }

  // Inside judge with this task.
  predicate IsInside(stage: Stage, task: SubmitTask) { stage == E.Judging(task) || stage == Hanging(task) }

  // Before a task is taken its row is untouched; once taken it is with the worker that took
  // it until its verdict has been attempted.
  ghost predicate PhaseInv(log: seq<Trace>, accepted: seq<SubmitTask>, takenCount: nat, workers: seq<Stage>) {
    && TouchedAreTaken(log, accepted, takenCount)
    && TakenAreHeld(log, accepted, takenCount, workers)
    && WorkersAgree(log, workers)
  }

  ghost predicate TouchedAreTaken(log: seq<Trace>, accepted: seq<SubmitTask>, takenCount: nat) {
    forall id :: 0 <= id < |log| && !log[id].phase.Untouched? ==>
      exists k :: 0 <= k < takenCount && k < |accepted| && accepted[k].submissionId == id
  }

  ghost predicate TakenAreHeld(log: seq<Trace>, accepted: seq<SubmitTask>, takenCount: nat, workers: seq<Stage>) {
    forall k :: 0 <= k < takenCount && k < |accepted| && accepted[k].submissionId < |log| ==>
      var trace := log[accepted[k].submissionId];
      && (trace.phase.Untouched? ==> trace.worker < |workers| && workers[trace.worker] == Marking(accepted[k]))
      && (trace.phase.Marked? ==> trace.worker < |workers| && IsInside(workers[trace.worker], accepted[k]))
  }

  ghost predicate WorkersAgree(log: seq<Trace>, workers: seq<Stage>) {
    && (forall w :: 0 <= w < |workers| && workers[w].Marking? ==>
          var id := workers[w].task.submissionId;
          id < |log| && log[id].phase.Untouched? && log[id].worker == w)
    && (forall w :: 0 <= w < |workers| && (workers[w].Judging? || workers[w].Hanging?) ==>
          var id := workers[w].task.submissionId;
          id < |log| && log[id].phase.Marked? && log[id].worker == w)
    && (forall w :: 0 <= w < |workers| && workers[w].Cleaning? ==>
          var id := workers[w].task.submissionId;
          id < |log| && log[id].phase.Decided?)
  }

  // One request per granted token, in the same order and for the same user.
  ghost predicate TokenInv(requests: seq<Request>, granted: seq<Call>) {
    |requests| == |granted| && forall i :: 0 <= i < |granted| ==> requests[i].userId == granted[i].userId
  }

  ghost predicate Good(s: State) {
    && E.Inv(s.exec)
    && RowsInv(s.pipe, s.requests, s.rows, s.log)
    && AcceptedInv(s.requests, s.log, s.exec.accepted)
    && PhaseInv(s.log, s.exec.accepted, |s.exec.taken|, s.exec.workers)
    && TokenInv(s.requests, Granted(s.calls, s.window))
  }

  lemma StartGood(maxQueue: int, workerThreads: int, window: int, pipe: nat)
    ensures Good(Start(maxQueue, workerThreads, window, pipe))
  {
    hide E.Start, E.Inv;
    StartIdle(maxQueue, workerThreads);
    NothingYet(E.Start(maxQueue, workerThreads), window, pipe);
  }

  lemma NothingYet(x: E.State, window: int, pipe: nat)
    requires x.accepted == [] && x.taken == [] && forall w :: 0 <= w < |x.workers| ==> x.workers[w].AtTop?
    ensures RowsInv(pipe, [], [], []) && AcceptedInv([], [], x.accepted)
    ensures PhaseInv([], x.accepted, |x.taken|, x.workers) && TokenInv([], Granted([], window))
  {
    hide RowsInv, AcceptedInv, PhaseInv;
    NoRowsYet(pipe);
    IdleWorkers(x.workers);
  }

  lemma NoRowsYet(pipe: nat)
    ensures RowsInv(pipe, [], [], []) && AcceptedInv([], [], [])
  {}

  lemma IdleWorkers(workers: seq<Stage>)
    requires forall w :: 0 <= w < |workers| ==> workers[w].AtTop?
    ensures PhaseInv([], [], 0, workers)
  {}

  lemma StartIdle(maxQueue: int, workerThreads: int)
    ensures var s := E.Start(maxQueue, workerThreads);
      E.Inv(s) && s.accepted == [] && s.taken == [] && forall w :: 0 <= w < |s.workers| ==> s.workers[w].AtTop?
  {
    StartInv(maxQueue, workerThreads);
  }

  // Submission ids come from AUTO_INCREMENT, so accepted tasks never share one.
  lemma AcceptedDistinct(requests: seq<Request>, log: seq<Trace>, accepted: seq<SubmitTask>)
    requires AcceptedInv(requests, log, accepted)
    ensures DistinctIds(accepted)
  {}

  // ---- Every step keeps it ----

  lemma ActionIsStep(s: State, e: Event)
    requires Ready(s, e) && Good(s)
    ensures ActionOf(s, e).Some? ==> Enabled(s.exec, ActionOf(s, e).value)
    ensures Next(s, e).exec == (if ActionOf(s, e).Some? then Apply(s.exec, ActionOf(s, e).value) else s.exec)
  {
    hide Good, WorkStep, RightOutcome, Concerns;
  }

  lemma StepExec(s: State, e: Event)
    requires Ready(s, e) && Good(s)
    ensures E.Inv(Next(s, e).exec)
  {
    ActionIsStep(s, e);
    AcceptedDistinct(s.requests, s.log, s.exec.accepted);
    if ActionOf(s, e).Some? {
      var a := ActionOf(s, e).value;
      StepMutex(s.exec, a);
      StepFifo(s.exec, a);
      StepOwner(s.exec, a);
      StepStaffed(s.exec, a);
      StepNoticed(s.exec, a);
    }
  }

  // -- Changes to requests --

  lemma NewRequest(pipe: nat, requests: seq<Request>, rows: seq<Row>, log: seq<Trace>, accepted: seq<SubmitTask>,
                   q: Request)
    requires RowsInv(pipe, requests, rows, log) && AcceptedInv(requests, log, accepted) && q.progress.Admitted?
    ensures RowsInv(pipe, requests + [q], rows, log) && AcceptedInv(requests + [q], log, accepted)
  {}

  ghost predicate Replaced(requests: seq<Request>, r: nat, q: Request, after: seq<Request>) {
    r < |requests| && after == requests[r := q]
    && q.userId == requests[r].userId && q.problemId == requests[r].problemId && q.code == requests[r].code
  }

  lemma ProgressRows(pipe: nat, requests: seq<Request>, rows: seq<Row>, log: seq<Trace>,
                     r: nat, q: Request, after: seq<Request>)
    requires RowsInv(pipe, requests, rows, log) && Replaced(requests, r, q, after)
    requires IdOf(q.progress) == IdOf(requests[r].progress)
    ensures RowsInv(pipe, after, rows, log)
  {}

  lemma ProgressAccepted(requests: seq<Request>, log: seq<Trace>, accepted: seq<SubmitTask>,
                         r: nat, q: Request, after: seq<Request>)
    requires AcceptedInv(requests, log, accepted) && Replaced(requests, r, q, after)
    requires !requests[r].progress.Queued? && !q.progress.Queued?
    ensures AcceptedInv(after, log, accepted)
  {}

  lemma InsertRows(pipe: nat, requests: seq<Request>, rows: seq<Row>, log: seq<Trace>,
                   r: nat, q: Request, after: seq<Request>)
    requires RowsInv(pipe, requests, rows, log) && Replaced(requests, r, q, after)
    requires requests[r].progress.Admitted? && q.progress == HasRow(|rows|)
    ensures RowsInv(pipe, after, rows + [NewRow(q.userId, q.problemId, q.code)], log + [Trace(r, 0, Untouched, None)])
  {}

  lemma InsertAccepted(requests: seq<Request>, log: seq<Trace>, accepted: seq<SubmitTask>, trace: Trace)
    requires AcceptedInv(requests, log, accepted)
    ensures AcceptedInv(requests, log + [trace], accepted)
  {}

  lemma AcceptTask(pipe: nat, requests: seq<Request>, rows: seq<Row>, log: seq<Trace>, accepted: seq<SubmitTask>,
                   r: nat, q: Request, after: seq<Request>, task: SubmitTask)
    requires RowsInv(pipe, requests, rows, log) && AcceptedInv(requests, log, accepted)
    requires Replaced(requests, r, q, after) && requests[r].progress.HasRow?
    requires q.progress == Queued(requests[r].progress.id, |accepted|) && Carries(task, requests[r])
    ensures AcceptedInv(after, log, accepted + [task])
  {}

  // -- Changes to rows and history --

  ghost predicate SameOrigins(log: seq<Trace>, after: seq<Trace>) {
    |after| == |log| && forall id :: 0 <= id < |log| ==> after[id].origin == log[id].origin
  }

  lemma LogAccepted(requests: seq<Request>, log: seq<Trace>, accepted: seq<SubmitTask>, after: seq<Trace>)
    requires AcceptedInv(requests, log, accepted) && SameOrigins(log, after)
    ensures AcceptedInv(requests, after, accepted)
  {}

  lemma WorkerRows(pipe: nat, requests: seq<Request>, rows: seq<Row>, log: seq<Trace>, id: nat, w: nat)
    requires RowsInv(pipe, requests, rows, log)
    ensures RowsInv(pipe, requests, rows, SetWorker(log, id, w)) && SameOrigins(log, SetWorker(log, id, w))
  {}

  lemma TableRows(pipe: nat, requests: seq<Request>, rows: seq<Row>, log: seq<Trace>, id: nat, table: set<TestCase>)
    requires RowsInv(pipe, requests, rows, log) && (id < |log| ==> log[id].phase.Marked?)
    ensures RowsInv(pipe, requests, rows, SetTable(log, id, table)) && SameOrigins(log, SetTable(log, id, table))
  {}

  lemma PhaseRows(pipe: nat, requests: seq<Request>, rows: seq<Row>, log: seq<Trace>,
                  id: nat, u: Update, arrived: bool, phase: Phase)
    requires RowsInv(pipe, requests, rows, log) && id < |rows|
    requires GoodPhase(pipe, requests[log[id].origin], phase, log[id].table)
    requires (phase == Marked(arrived) && u == MARK_JUDGING && log[id].phase.Untouched?)
          || (log[id].phase.Marked? && phase.Decided? && phase.markArrived == log[id].phase.markArrived
              && phase.verdict == u && phase.verdictArrived == arrived)
    ensures RowsInv(pipe, requests, UpdateRow(rows, id, u, arrived), SetPhase(log, id, phase))
    ensures SameOrigins(log, SetPhase(log, id, phase))
  {}

  // -- Changes to workers, tasks and history --

  lemma PhaseNewRow(log: seq<Trace>, accepted: seq<SubmitTask>, taken: nat, workers: seq<Stage>, origin: nat)
    requires PhaseInv(log, accepted, taken, workers)
    requires forall k :: 0 <= k < |accepted| ==> accepted[k].submissionId < |log|
    ensures PhaseInv(log + [Trace(origin, 0, Untouched, None)], accepted, taken, workers)
  {}

  lemma PhaseAccept(log: seq<Trace>, accepted: seq<SubmitTask>, taken: nat, workers: seq<Stage>, task: SubmitTask)
    requires PhaseInv(log, accepted, taken, workers) && taken <= |accepted|
    ensures PhaseInv(log, accepted + [task], taken, workers)
  {
    var more := accepted + [task];
    forall id | 0 <= id < |log| && !log[id].phase.Untouched?
      ensures exists k :: 0 <= k < taken && k < |more| && more[k].submissionId == id
    {
      var k :| 0 <= k < taken && k < |accepted| && accepted[k].submissionId == id;
      assert more[k].submissionId == id;
    }
  }

  lemma PhaseTable(log: seq<Trace>, accepted: seq<SubmitTask>, taken: nat, workers: seq<Stage>,
                   id: nat, table: set<TestCase>)
    requires PhaseInv(log, accepted, taken, workers)
    ensures PhaseInv(SetTable(log, id, table), accepted, taken, workers)
  {}

  predicate HasRowTask(stage: Stage) { stage.Marking? || stage.Judging? || stage.Hanging? }

  lemma PhaseIdle(log: seq<Trace>, accepted: seq<SubmitTask>, taken: nat, workers: seq<Stage>, after: seq<Stage>)
    requires PhaseInv(log, accepted, taken, workers) && |after| == |workers|
    requires forall v :: 0 <= v < |workers| ==>
      after[v] == workers[v] || (!HasRowTask(workers[v]) && !Busy(after[v]))
    ensures PhaseInv(log, accepted, taken, after)
  {}

  lemma PhasePop(log: seq<Trace>, accepted: seq<SubmitTask>, taken: nat, workers: seq<Stage>, w: nat)
    requires PhaseInv(log, accepted, taken, workers) && DistinctIds(accepted) && taken < |accepted|
    requires forall k :: 0 <= k < |accepted| ==> accepted[k].submissionId < |log|
    requires w < |workers| && workers[w].Popping?
    requires forall v :: 0 <= v < |workers| && Busy(workers[v]) ==> workers[v].task in accepted[..taken]
    ensures PhaseInv(SetWorker(log, accepted[taken].submissionId, w), accepted, taken + 1,
                     workers[w := Marking(accepted[taken])])
  {
    var id := accepted[taken].submissionId;
    PopIsNew(log, accepted, taken, workers, id);
    PopTouched(log, accepted, taken, id, w);
    PopHeld(log, accepted, taken, workers, w);
    PopWorkers(log, accepted[taken], workers, w);
  }

  // The front task's row is untouched, and no busy worker has a task with its id.
  lemma PopIsNew(log: seq<Trace>, accepted: seq<SubmitTask>, taken: nat, workers: seq<Stage>, id: nat)
    requires TouchedAreTaken(log, accepted, taken) && DistinctIds(accepted) && taken < |accepted|
    requires id == accepted[taken].submissionId && id < |log|
    requires forall v :: 0 <= v < |workers| && Busy(workers[v]) ==> workers[v].task in accepted[..taken]
    ensures log[id].phase.Untouched?
    ensures forall v :: 0 <= v < |workers| && Busy(workers[v]) ==> workers[v].task.submissionId != id
  {
    forall v | 0 <= v < |workers| && Busy(workers[v]) ensures workers[v].task.submissionId != id {
      var k :| 0 <= k < taken && accepted[k] == workers[v].task;
    }
  }

  lemma PopTouched(log: seq<Trace>, accepted: seq<SubmitTask>, taken: nat, id: nat, w: nat)
    requires TouchedAreTaken(log, accepted, taken)
    ensures TouchedAreTaken(SetWorker(log, id, w), accepted, taken + 1)
  {
    var after := SetWorker(log, id, w);
    forall i | 0 <= i < |after| && !after[i].phase.Untouched?
      ensures exists k :: 0 <= k < taken + 1 && k < |accepted| && accepted[k].submissionId == i
    {
      assert !log[i].phase.Untouched?;
    }
  }

  lemma PopHeld(log: seq<Trace>, accepted: seq<SubmitTask>, taken: nat, workers: seq<Stage>, w: nat)
    requires TakenAreHeld(log, accepted, taken, workers) && DistinctIds(accepted) && taken < |accepted|
    requires accepted[taken].submissionId < |log| && log[accepted[taken].submissionId].phase.Untouched?
    requires w < |workers| && workers[w].Popping?
    ensures TakenAreHeld(SetWorker(log, accepted[taken].submissionId, w), accepted, taken + 1,
                         workers[w := Marking(accepted[taken])])
  {}

  lemma PopWorkers(log: seq<Trace>, task: SubmitTask, workers: seq<Stage>, w: nat)
    requires WorkersAgree(log, workers) && w < |workers| && workers[w].Popping?
    requires task.submissionId < |log| && log[task.submissionId].phase.Untouched?
    requires forall v :: 0 <= v < |workers| && Busy(workers[v]) ==> workers[v].task.submissionId != task.submissionId
    ensures WorkersAgree(SetWorker(log, task.submissionId, w), workers[w := Marking(task)])
  {}

  lemma PhaseMark(log: seq<Trace>, accepted: seq<SubmitTask>, taken: nat, workers: seq<Stage>, w: nat, arrived: bool)
    requires PhaseInv(log, accepted, taken, workers) && DistinctIds(accepted) && taken <= |accepted|
    requires w < |workers| && workers[w].Marking? && workers[w].task in accepted[..taken]
    requires OtherIds(workers, w)
    ensures PhaseInv(SetPhase(log, workers[w].task.submissionId, Marked(arrived)), accepted, taken,
                     workers[w := E.Judging(workers[w].task)])
  {
    var task := workers[w].task;
    assert task.submissionId < |log| && log[task.submissionId].worker == w;
    PhaseTouched(log, accepted, taken, task, Marked(arrived));
    PhaseHeld(log, accepted, taken, workers, w, Marked(arrived), E.Judging(task));
    PhaseWorkers(log, workers, w, Marked(arrived), E.Judging(task));
  }

  lemma PhaseDecide(log: seq<Trace>, accepted: seq<SubmitTask>, taken: nat, workers: seq<Stage>, w: nat, phase: Phase)
    requires PhaseInv(log, accepted, taken, workers) && DistinctIds(accepted) && taken <= |accepted|
    requires w < |workers| && workers[w].Judging? && workers[w].task in accepted[..taken] && phase.Decided?
    requires OtherIds(workers, w)
    ensures PhaseInv(SetPhase(log, workers[w].task.submissionId, phase), accepted, taken,
                     workers[w := Cleaning(workers[w].task)])
  {
    var task := workers[w].task;
    assert task.submissionId < |log| && log[task.submissionId].worker == w;
    PhaseTouched(log, accepted, taken, task, phase);
    PhaseHeld(log, accepted, taken, workers, w, phase, Cleaning(task));
    PhaseWorkers(log, workers, w, phase, Cleaning(task));
  }

  // The stage a worker goes to with its next update.
  predicate Follows(phase: Phase, stage: Stage) {
    (phase.Marked? && stage.Judging?) || (phase.Decided? && stage.Cleaning?)
  }

  lemma PhaseTouched(log: seq<Trace>, accepted: seq<SubmitTask>, taken: nat, task: SubmitTask, phase: Phase)
    requires TouchedAreTaken(log, accepted, taken) && taken <= |accepted| && task in accepted[..taken]
    ensures TouchedAreTaken(SetPhase(log, task.submissionId, phase), accepted, taken)
  {
    var after := SetPhase(log, task.submissionId, phase);
    var j :| 0 <= j < taken && accepted[j] == task;
    forall i | 0 <= i < |after| && !after[i].phase.Untouched?
      ensures exists k :: 0 <= k < taken && k < |accepted| && accepted[k].submissionId == i
    {
      if i == task.submissionId {
        assert accepted[j].submissionId == i;
      } else {
        assert !log[i].phase.Untouched?;
      }
    }
  }

  lemma PhaseHeld(log: seq<Trace>, accepted: seq<SubmitTask>, taken: nat, workers: seq<Stage>, w: nat,
                  phase: Phase, stage: Stage)
    requires TakenAreHeld(log, accepted, taken, workers) && DistinctIds(accepted) && taken <= |accepted|
    requires w < |workers| && Busy(workers[w]) && workers[w].task in accepted[..taken]
    requires workers[w].task.submissionId < |log| && log[workers[w].task.submissionId].worker == w
    requires Follows(phase, stage) && stage.task == workers[w].task && OtherIds(workers, w)
    ensures TakenAreHeld(SetPhase(log, stage.task.submissionId, phase), accepted, taken, workers[w := stage])
  {
    var j :| 0 <= j < taken && accepted[j] == stage.task;
    var id, after := stage.task.submissionId, SetPhase(log, stage.task.submissionId, phase);
    forall k | 0 <= k < taken && k < |accepted| && accepted[k].submissionId < |after|
      ensures var trace := after[accepted[k].submissionId];
        && (trace.phase.Untouched? ==>
              trace.worker < |workers| && workers[w := stage][trace.worker] == Marking(accepted[k]))
        && (trace.phase.Marked? ==>
              trace.worker < |workers| && IsInside(workers[w := stage][trace.worker], accepted[k]))
    {
      assert accepted[k].submissionId == id ==> k == j;
    }
  }

  lemma PhaseWorkers(log: seq<Trace>, workers: seq<Stage>, w: nat, phase: Phase, stage: Stage)
    requires WorkersAgree(log, workers) && w < |workers| && Busy(workers[w]) && OtherIds(workers, w)
    requires workers[w].task.submissionId < |log| && log[workers[w].task.submissionId].worker == w
    requires Follows(phase, stage) && stage.task == workers[w].task
    ensures WorkersAgree(SetPhase(log, stage.task.submissionId, phase), workers[w := stage])
  {}

  lemma PhaseHang(log: seq<Trace>, accepted: seq<SubmitTask>, taken: nat, workers: seq<Stage>, w: nat)
    requires PhaseInv(log, accepted, taken, workers) && w < |workers| && workers[w].Judging?
    ensures PhaseInv(log, accepted, taken, workers[w := Hanging(workers[w].task)])
  {}

  // No other busy worker has a task with the id of w's task.
  ghost predicate OtherIds(workers: seq<Stage>, w: nat)
    requires w < |workers| && Busy(workers[w])
  {
    forall v :: 0 <= v < |workers| && v != w && Busy(workers[v]) ==>
      workers[v].task.submissionId != workers[w].task.submissionId
  }

  // -- The steps --

  lemma StepSubmit(s: State, e: Event)
    requires e.Submit? && Ready(s, e) && Good(s)
    ensures Good(Next(s, e))
  {
    hide RowsInv, AcceptedInv, PhaseInv, E.Inv, Allowed, LastAfter, Granted;
    GrantedAppend(s.calls, Call(e.userId, e.now), s.window);
    NewRequest(s.pipe, s.requests, s.rows, s.log, s.exec.accepted, Request(e.userId, e.problemId, e.code, Admitted));
  }

  lemma StepAbort(s: State, e: Event)
    requires e.Abort? && Ready(s, e) && Good(s)
    ensures Good(Next(s, e))
  {
    var t := Next(s, e);
    ProgressRows(s.pipe, s.requests, s.rows, s.log, e.r, t.requests[e.r], t.requests);
    ProgressAccepted(s.requests, s.log, s.exec.accepted, e.r, t.requests[e.r], t.requests);
  }

  lemma StepInsert(s: State, e: Event)
    requires e.Insert? && Ready(s, e) && Good(s)
    ensures Good(Next(s, e))
  {
    var t := Next(s, e);
    InsertRows(s.pipe, s.requests, s.rows, s.log, e.r, t.requests[e.r], t.requests);
    ProgressAccepted(s.requests, s.log, s.exec.accepted, e.r, t.requests[e.r], t.requests);
    InsertAccepted(t.requests, s.log, s.exec.accepted, Trace(e.r, 0, Untouched, None));
    PhaseNewRow(s.log, s.exec.accepted, |s.exec.taken|, s.exec.workers, e.r);
  }

  lemma StepOffer(s: State, e: Event)
    requires e.Offer? && Ready(s, e) && Good(s)
    ensures Good(Next(s, e))
  {
    StepExec(s, e);
    TakenAccepted(s);
    hide RowsInv, AcceptedInv, PhaseInv, TokenInv, E.Inv;
    var t, q := Next(s, e), s.requests[e.r];
    SameTokens(s.requests, e.r, t.requests[e.r], Granted(s.calls, s.window));
    ProgressRows(s.pipe, s.requests, s.rows, s.log, e.r, t.requests[e.r], t.requests);
    if |s.exec.queue| >= s.exec.capacity {
      ProgressAccepted(s.requests, s.log, s.exec.accepted, e.r, t.requests[e.r], t.requests);
    } else {
      var task := TaskOf(q, e.timeLimit, e.memoryLimit);
      AcceptTask(s.pipe, s.requests, s.rows, s.log, s.exec.accepted, e.r, t.requests[e.r], t.requests, task);
      PhaseAccept(s.log, s.exec.accepted, |s.exec.taken|, s.exec.workers, task);
    }
  }

  lemma TakenAccepted(s: State)
    requires Good(s)
    ensures |s.exec.taken| <= |s.exec.accepted|
  {}

  lemma SameTokens(requests: seq<Request>, r: nat, q: Request, granted: seq<Call>)
    requires TokenInv(requests, granted) && r < |requests| && q.userId == requests[r].userId
    ensures TokenInv(requests[r := q], granted)
  {}

  lemma BusyTask(s: State, w: nat)
    requires Good(s) && w < |s.exec.workers| && Busy(s.exec.workers[w])
    ensures DistinctIds(s.exec.accepted) && |s.exec.taken| <= |s.exec.accepted|
    ensures s.exec.accepted[..|s.exec.taken|] == s.exec.taken
    ensures s.exec.workers[w].task in s.exec.taken
    ensures s.exec.workers[w].task.submissionId < |s.log|
    ensures OtherIds(s.exec.workers, w)
    ensures var id := s.exec.workers[w].task.submissionId;
      s.log[id].origin < |s.requests| && Carries(s.exec.workers[w].task, s.requests[s.log[id].origin])
  {
    AcceptedDistinct(s.requests, s.log, s.exec.accepted);
    var task := s.exec.workers[w].task;
    var k :| 0 <= k < |s.exec.taken| && s.exec.taken[k] == task;
    assert s.exec.accepted[k] == task;
  }

  lemma PhaseOfBusy(s: State, w: nat)
    requires Good(s) && w < |s.exec.workers| && HasRowTask(s.exec.workers[w])
    ensures var id := s.exec.workers[w].task.submissionId;
      id < |s.log| == |s.rows|
      && (s.exec.workers[w].Marking? ==> s.log[id].phase.Untouched? && s.log[id].table.None?)
      && (s.exec.workers[w].Judging? || s.exec.workers[w].Hanging? ==> s.log[id].phase.Marked?)
  {}

  lemma StepMark(s: State, e: Event)
    requires e.Mark? && Ready(s, e) && Good(s)
    ensures Good(Next(s, e))
  {
    hide RowsInv, AcceptedInv, PhaseInv, TokenInv, E.Inv;
    StepExec(s, e);
    BusyTask(s, e.w);
    PhaseOfBusy(s, e.w);
    var id, phase := s.exec.workers[e.w].task.submissionId, Marked(e.arrived);
    PhaseRows(s.pipe, s.requests, s.rows, s.log, id, MARK_JUDGING, e.arrived, phase);
    LogAccepted(s.requests, s.log, s.exec.accepted, SetPhase(s.log, id, phase));
    PhaseMark(s.log, s.exec.accepted, |s.exec.taken|, s.exec.workers, e.w, e.arrived);
  }

  lemma StepDecide(s: State, e: Event)
    requires e.Decide? && Ready(s, e) && Good(s)
    ensures Good(Next(s, e))
  {
    hide RowsInv, AcceptedInv, PhaseInv, TokenInv, E.Inv, RightOutcome;
    StepExec(s, e);
    BusyTask(s, e.w);
    PhaseOfBusy(s, e.w);
    var id := s.exec.workers[e.w].task.submissionId;
    var phase := Decided(MarkArrived(s.log, id), e.world, e.verdict, e.arrived);
    PhaseRows(s.pipe, s.requests, s.rows, s.log, id, e.verdict, e.arrived, phase);
    LogAccepted(s.requests, s.log, s.exec.accepted, SetPhase(s.log, id, phase));
    PhaseDecide(s.log, s.exec.accepted, |s.exec.taken|, s.exec.workers, e.w, phase);
  }

  lemma StepMove(s: State, e: Event)
    requires e.Move? && Ready(s, e) && Good(s)
    ensures Good(Next(s, e))
  {
    if s.exec.workers[e.w].Popping? {
      StepPop(s, e);
    } else {
      hide RowsInv, AcceptedInv, PhaseInv, TokenInv, E.Inv, WorkStep;
      StepExec(s, e);
      GoodMutex(s);
      IdleMove(s.exec, e.w, e.timedOut);
      PhaseIdle(s.log, s.exec.accepted, |s.exec.taken|, s.exec.workers, Next(s, e).exec.workers);
    }
  }

  lemma StepPop(s: State, e: Event)
    requires e.Move? && Ready(s, e) && s.exec.workers[e.w].Popping? && Good(s)
    ensures Good(Next(s, e))
  {
    hide RowsInv, AcceptedInv, PhaseInv, TokenInv, E.Inv;
    StepExec(s, e);
    PopFacts(s, e.w);
    WorkerRows(s.pipe, s.requests, s.rows, s.log, s.exec.queue[0].submissionId, e.w);
    LogAccepted(s.requests, s.log, s.exec.accepted, Next(s, e).log);
    PhasePop(s.log, s.exec.accepted, |s.exec.taken|, s.exec.workers, e.w);
  }

  lemma PopFacts(s: State, w: nat)
    requires Good(s) && w < |s.exec.workers| && s.exec.workers[w].Popping?
    ensures s.exec.queue != [] && |s.exec.taken| < |s.exec.accepted|
    ensures s.exec.accepted[|s.exec.taken|] == s.exec.queue[0]
    ensures DistinctIds(s.exec.accepted)
    ensures forall k :: 0 <= k < |s.exec.accepted| ==> s.exec.accepted[k].submissionId < |s.log|
    ensures forall v :: 0 <= v < |s.exec.workers| && Busy(s.exec.workers[v]) ==>
      s.exec.workers[v].task in s.exec.accepted[..|s.exec.taken|]
  {
    AcceptedDistinct(s.requests, s.log, s.exec.accepted);
    assert s.exec.accepted[..|s.exec.taken|] == s.exec.taken;
  }

  lemma GoodMutex(s: State)
    requires Good(s)
    ensures MutexInv(s.exec)
  {}

  lemma IdleMove(x: E.State, w: nat, timedOut: bool)
    requires MutexInv(x) && CanWork(x, w) && !HasRowTask(x.workers[w]) && !x.workers[w].Popping?
    ensures var t := WorkStep(x, w, timedOut);
      t.accepted == x.accepted && t.taken == x.taken && t.workers == x.workers[w := t.workers[w]] && !Busy(t.workers[w])
  {}

  lemma StepHang(s: State, e: Event)
    requires e.Hang? && Ready(s, e) && Good(s)
    ensures Good(Next(s, e))
  {
    hide RowsInv, AcceptedInv, PhaseInv, TokenInv, E.Inv;
    StepExec(s, e);
    PhaseHang(s.log, s.exec.accepted, |s.exec.taken|, s.exec.workers, e.w);
  }

  lemma StepSelect(s: State, e: Event)
    requires e.Select? && Ready(s, e) && Good(s)
    ensures Good(Next(s, e))
  {
    PhaseOfBusy(s, e.w);
    hide RowsInv, AcceptedInv, PhaseInv, TokenInv, E.Inv;
    var id := s.exec.workers[e.w].task.submissionId;
    TableRows(s.pipe, s.requests, s.rows, s.log, id, s.tests);
    LogAccepted(s.requests, s.log, s.exec.accepted, SetTable(s.log, id, s.tests));
    PhaseTable(s.log, s.exec.accepted, |s.exec.taken|, s.exec.workers, id, s.tests);
  }

  lemma StepFlag(s: State, e: Event)
    requires (e.Shutdown? || e.Notify? || e.Deliver?) && Ready(s, e) && Good(s)
    ensures Good(Next(s, e))
  {
    StepExec(s, e);
    PhaseIdle(s.log, s.exec.accepted, |s.exec.taken|, s.exec.workers, Next(s, e).exec.workers);
  }

  lemma StepGood(s: State, e: Event)
    requires Ready(s, e) && Good(s)
    ensures Good(Next(s, e))
  {
    match e
    case Submit(_, _, _, _) => StepSubmit(s, e);
    case Abort(_) => StepAbort(s, e);
    case Insert(_) => StepInsert(s, e);
    case Offer(_, _, _) => StepOffer(s, e);
    case Move(_, _) => StepMove(s, e);
    case Mark(_, _) => StepMark(s, e);
    case Select(_) => StepSelect(s, e);
    case Decide(_, _, _, _) => StepDecide(s, e);
    case Deliver(_) => StepFlag(s, e);
    case AddCase(_) =>
    case DeleteCase(_) =>
    case Hang(_) => StepHang(s, e);
    case Shutdown => StepFlag(s, e);
    case Notify => StepFlag(s, e);
  }

  lemma {:induction false} RunGood(s: State, events: seq<Event>)
    requires Good(s) && Possible(s, events)
    ensures Good(Outcome(s, events))
    decreases |events|
  {
    if events != [] {
      StepGood(s, events[0]);
      RunGood(Next(s, events[0]), events[1..]);
    }
  }

  // ---- Runs in parts ----

  lemma {:induction false} OutcomeSplit(s: State, events: seq<Event>, n: nat)
    requires Possible(s, events) && n <= |events|
    ensures Possible(s, events[..n]) && Possible(Outcome(s, events[..n]), events[n..])
    ensures Outcome(s, events) == Outcome(Outcome(s, events[..n]), events[n..])
    decreases n
  {
    if n > 0 {
      assert events[..n][1..] == events[1..][..n - 1];
      OutcomeSplit(Next(s, events[0]), events[1..], n - 1);
    } else {
      assert events[..0] == [] && events[0..] == events;
    }
  }

  lemma OutcomeLast(s: State, events: seq<Event>)
    requires Possible(s, events) && events != []
    ensures var n := |events| - 1;
      Possible(s, events[..n]) && Ready(Outcome(s, events[..n]), events[n])
      && Outcome(s, events) == Next(Outcome(s, events[..n]), events[n])
  {
    var n := |events| - 1;
    OutcomeSplit(s, events, n);
    var rest := events[n..];
    assert rest[0] == events[n] && rest[1..] == [];
    assert Outcome(Next(Outcome(s, events[..n]), events[n]), []) == Next(Outcome(s, events[..n]), events[n]);
  }

  lemma EventsCons(s: State, e: Event, rest: seq<Event>)
    requires Ready(s, e) && Possible(Next(s, e), rest)
    ensures Possible(s, [e] + rest) && Outcome(s, [e] + rest) == Outcome(Next(s, e), rest)
  {
    assert ([e] + rest)[1..] == rest;
  }
}
