// The judge scheduler of ExecutorService as a step system: request threads and N workers
// share a bounded queue, a mutex, a condition variable with a one-second timed wait and the
// flag running_. One action is one critical section, or one read or write outside the mutex.
module Executor {
  import opened Common

  datatype SubmitTask = SubmitTask(submissionId: nat, problemId: int, userId: int, code: string,
                                   timeLimit: int, memoryLimit: int)

  // Where a worker stands in worker_loop.
  datatype Stage =
    | AtTop                      // about to read running_ in the while condition
    | Locking                    // about to take the mutex
    | Testing                    // holds the mutex, about to evaluate the wait predicate
    | Parking                    // holds the mutex, predicate was false, about to sleep
    | Asleep                     // in wait_for, mutex released
    | Waking(timedOut: bool)     // notified, woken spuriously or timed out; needs the mutex again
    | Rechecking                 // holds the mutex, about to test !running_ || queue_.empty()
    | Popping                    // holds the mutex, about to move the front task out
    | Marking(task: SubmitTask)  // about to write JUDGING
    | Judging(task: SubmitTask)  // inside judge, before its verdict write
    | Hanging(task: SubmitTask)  // inside judge, in a call that never returns
    | Cleaning(task: SubmitTask) // verdict written or dropped, about to remove the sandbox directory
    | Exited

  // notifies counts the calls of enqueue that have queued a task and are about to notify. accepted
  // and taken are history: the tasks enqueue said yes to, and the tasks popped, in order.
  datatype State = State(running: bool, capacity: nat, queue: seq<SubmitTask>, holder: Option<nat>,
                         workers: seq<Stage>, notifies: nat, accepted: seq<SubmitTask>, taken: seq<SubmitTask>)

  datatype Action =
    | Enqueue(task: SubmitTask)             // enqueue's critical section
    | NotifyOne(worker: nat)                // enqueue's notify, outside the mutex, and whom it wakes
    | Work(worker: nat, timedOut: bool)     // the next step of a worker; a sleeper's is its timeout, or spurious
    | Hang(worker: nat)                     // compile, which has no wall clock, or the sandbox never returns
    | StopStore                             // shutdown: running_ = false, without the mutex
    | NotifyAll                             // shutdown: cv_.notify_all()

  // max_queue is converted to size_t before the comparison: a negative value wraps around.
  function Capacity(maxQueue: int): nat {
    if maxQueue >= 0 then maxQueue else
      var wrapped := maxQueue % 0x1_0000_0000_0000_0000; wrapped
  }

  // init: n < 1 is raised to one worker.
  function Start(maxQueue: int, workerThreads: int): State {
    var n: nat := if workerThreads < 1 then 1 else workerThreads;
    State(true, Capacity(maxQueue), [], None, seq(n, i => AtTop), 0, [], [])
  }

  predicate HoldsMutex(stage: Stage) {
    stage.Testing? || stage.Parking? || stage.Rechecking? || stage.Popping?
  }

  predicate Busy(stage: Stage) { stage.Marking? || stage.Judging? || stage.Hanging? || stage.Cleaning? }

  predicate NeedsMutex(stage: Stage) { stage.Locking? || stage.Waking? }

  // A worker can always move except when it has exited, hangs, or waits for a taken mutex.
  predicate CanWork(s: State, w: nat) {
    && w < |s.workers| && !s.workers[w].Exited? && !s.workers[w].Hanging?
    && (NeedsMutex(s.workers[w]) ==> s.holder.None?)
  }

  predicate SomeAsleep(s: State) { exists w :: 0 <= w < |s.workers| && s.workers[w].Asleep? }

  // A notify wakes one sleeper, if there is any.
  predicate Enabled(s: State, a: Action) {
    match a
    case Enqueue(_) => s.holder.None?
    case NotifyOne(w) => s.notifies > 0 && (SomeAsleep(s) ==> w < |s.workers| && s.workers[w].Asleep?)
    case Work(w, _) => CanWork(s, w)
    case Hang(w) => w < |s.workers| && s.workers[w].Judging?
    case StopStore => true
    case NotifyAll => !s.running
  }

  function Goto(s: State, w: nat, stage: Stage): State
    requires w < |s.workers|
  {
    s.(workers := s.workers[w := stage])
  }

  function TryEnqueue(s: State, task: SubmitTask): State {
    if |s.queue| >= s.capacity then s
    else s.(queue := s.queue + [task], accepted := s.accepted + [task], notifies := s.notifies + 1)
  }

  function WorkStep(s: State, w: nat, timedOut: bool): State
    requires CanWork(s, w)
  {
    match s.workers[w]
    case AtTop => Goto(s, w, if s.running then Locking else Exited)
    case Locking => Goto(s, w, Testing).(holder := Some(w))
    case Testing => Goto(s, w, if !s.running || s.queue != [] then Rechecking else Parking)
    case Parking => Goto(s, w, Asleep).(holder := None)
    case Asleep => Goto(s, w, Waking(timedOut))
    case Waking(late) => Goto(s, w, if late then Rechecking else Testing).(holder := Some(w))
    case Rechecking =>
      if !s.running || s.queue == [] then Goto(s, w, AtTop).(holder := None)
      else Goto(s, w, Popping)
    case Popping =>
      if s.queue == [] then s  // front() of an empty queue; MutexInv shows it cannot happen
      else Goto(s, w, Marking(s.queue[0])).(queue := s.queue[1..], taken := s.taken + [s.queue[0]], holder := None)
    case Marking(task) => Goto(s, w, Judging(task))
    case Judging(task) => Goto(s, w, Cleaning(task))
    case Cleaning(_) => Goto(s, w, AtTop)
  }

  function WakeAll(workers: seq<Stage>): seq<Stage> {
    seq(|workers|, i requires 0 <= i < |workers| => if workers[i].Asleep? then Waking(false) else workers[i])
  }

  function WakeOne(workers: seq<Stage>, w: nat): seq<Stage> {
    if w < |workers| && workers[w].Asleep? then workers[w := Waking(false)] else workers
  }

  function Apply(s: State, a: Action): State
    requires Enabled(s, a)
  {
    match a
    case Enqueue(task) => TryEnqueue(s, task)
    case NotifyOne(w) => s.(notifies := s.notifies - 1, workers := WakeOne(s.workers, w))
    case Work(w, timedOut) => WorkStep(s, w, timedOut)
    case Hang(w) => Goto(s, w, Hanging(s.workers[w].task))
    case StopStore => s.(running := false)
    case NotifyAll => s.(workers := WakeAll(s.workers))
  }

  // A run is a list of actions, each enabled where it happens.
  ghost predicate Runs(s: State, actions: seq<Action>)
    decreases |actions|
  {
    actions == [] || (Enabled(s, actions[0]) && Runs(Apply(s, actions[0]), actions[1..]))
  }

  ghost function After(s: State, actions: seq<Action>): State
    requires Runs(s, actions)
    decreases |actions|
  {
    if actions == [] then s else After(Apply(s, actions[0]), actions[1..])
  }

  // ---- Safety ----

  // Mutual exclusion: the recorded holder is exactly the one worker inside a critical section.
  ghost predicate MutexInv(s: State) {
    && (s.holder.Some? ==> s.holder.value < |s.workers|)
    && (forall w :: 0 <= w < |s.workers| ==> (HoldsMutex(s.workers[w]) <==> s.holder == Some(w)))
    && (forall w :: 0 <= w < |s.workers| && s.workers[w].Popping? ==> s.queue != [])
  }

  ghost predicate DistinctIds(tasks: seq<SubmitTask>) {
    forall i, j :: 0 <= i < j < |tasks| ==> tasks[i].submissionId != tasks[j].submissionId
  }

  // First in, first out, and bounded.
  ghost predicate FifoInv(s: State) {
    s.accepted == s.taken + s.queue && |s.queue| <= s.capacity
  }

  // A worker busy with a task took it from the queue, and no other worker has a task with that id.
  ghost predicate OwnerInv(s: State) {
    && (forall w :: 0 <= w < |s.workers| && Busy(s.workers[w]) ==> s.workers[w].task in s.taken)
    && (forall v, w :: 0 <= v < w < |s.workers| && Busy(s.workers[v]) && Busy(s.workers[w]) ==>
          s.workers[v].task.submissionId != s.workers[w].task.submissionId)
  }

  // There is a worker, and none exits while the service runs.
  ghost predicate Staffed(s: State) {
    s.workers != [] && (s.running ==> forall w :: 0 <= w < |s.workers| ==> !s.workers[w].Exited?)
  }

  ghost predicate Inv(s: State) { MutexInv(s) && FifoInv(s) && OwnerInv(s) && Staffed(s) && Noticed(s) }

  // Will look at the queue again before it sleeps.
  function AwakeWeight(stage: Stage): nat {
    match stage
    case AtTop => 1
    case Locking => 1
    case Testing => 1
    case Waking(_) => 1
    case Rechecking => 1
    case Popping => 1
    case _ => 0
  }

  // While a worker sleeps, every queued task has an awake worker or a notify on its way: unlike
  // the notify of shutdown, those of enqueue are never missed.
  ghost predicate Noticed(s: State) {
    s.running ==>
      && (forall w :: 0 <= w < |s.workers| && s.workers[w].Parking? ==> s.queue == [])
      && (SomeAsleep(s) ==> |s.queue| <= Sum(s.workers, AwakeWeight) + s.notifies)
  }

  lemma StartInv(maxQueue: int, workerThreads: int)
    ensures Inv(Start(maxQueue, workerThreads))
  {}

  // A worker's step changes no other worker's stage.
  lemma WorkTouchesOne(s: State, w: nat, timedOut: bool)
    requires MutexInv(s) && CanWork(s, w)
    ensures var t := WorkStep(s, w, timedOut);
      |t.workers| == |s.workers| && t.workers == s.workers[w := t.workers[w]]
    ensures var t := WorkStep(s, w, timedOut);
      t.holder == if HoldsMutex(t.workers[w]) then Some(w) else if HoldsMutex(s.workers[w]) then None else s.holder
    ensures var t := WorkStep(s, w, timedOut);
      t.queue != s.queue ==> s.workers[w].Popping?
  {}

  lemma StepMutex(s: State, a: Action)
    requires MutexInv(s) && Enabled(s, a)
    ensures MutexInv(Apply(s, a))
  {
    if a.Work? {
      WorkTouchesOne(s, a.worker, a.timedOut);
      hide WorkStep;
      var t := Apply(s, a);
      assert t.workers[a.worker].Popping? ==> t.queue != [] by { PoppingNonEmpty(s, a.worker, a.timedOut); }
    }
  }

  lemma PoppingNonEmpty(s: State, w: nat, timedOut: bool)
    requires CanWork(s, w) && MutexInv(s)
    ensures WorkStep(s, w, timedOut).workers[w].Popping? ==> WorkStep(s, w, timedOut).queue != []
  {}

  lemma StepFifo(s: State, a: Action)
    requires MutexInv(s) && FifoInv(s) && Enabled(s, a)
    ensures FifoInv(Apply(s, a))
    ensures s.accepted <= Apply(s, a).accepted && s.taken <= Apply(s, a).taken
  {
    var t := Apply(s, a);
    if a.Work? && s.workers[a.worker].Popping? {
      assert s.queue == [s.queue[0]] + s.queue[1..];
    }
  }

  // Taking the front task cannot collide with a task some worker still has: its id is new
  // among the taken ones.
  lemma StepOwner(s: State, a: Action)
    requires Inv(s) && Enabled(s, a) && DistinctIds(s.accepted)
    ensures OwnerInv(Apply(s, a))
  {
    if a.Work? {
      WorkTouchesOne(s, a.worker, a.timedOut);
      WorkTask(s, a.worker, a.timedOut);
      hide WorkStep;
    }
    if a.Work? && s.workers[a.worker].Popping? {
      var front := s.queue[0];
      assert s.accepted[|s.taken|] == front;
      forall w | 0 <= w < |s.workers| && Busy(s.workers[w])
        ensures s.workers[w].task.submissionId != front.submissionId
      {
        var i :| 0 <= i < |s.taken| && s.taken[i] == s.workers[w].task;
        assert s.accepted[i] == s.taken[i];
      }
    }
  }

  lemma StepStaffed(s: State, a: Action)
    requires Staffed(s) && Enabled(s, a)
    ensures Staffed(Apply(s, a)) && |Apply(s, a).workers| == |s.workers|
  {}

  lemma StepNoticed(s: State, a: Action)
    requires MutexInv(s) && Noticed(s) && Enabled(s, a)
    ensures Noticed(Apply(s, a))
  {
    if s.running {
      match a
      case Work(w, timedOut) => WorkNoticed(s, w, timedOut);
      case NotifyOne(w) => NotifyNoticed(s, w);
      case Hang(w) => SumUpdate(s.workers, w, Apply(s, a).workers[w], AwakeWeight);
      case _ =>
    }
  }

  // A worker lies down only when the queue is empty, and takes one task when it stops looking.
  lemma WorkNoticed(s: State, w: nat, timedOut: bool)
    requires MutexInv(s) && Noticed(s) && s.running && CanWork(s, w)
    ensures Noticed(WorkStep(s, w, timedOut))
  {
    var t := WorkStep(s, w, timedOut);
    WorkTouchesOne(s, w, timedOut);
    SumUpdate(s.workers, w, t.workers[w], AwakeWeight);
    WorkAwake(s, w, timedOut);
    hide WorkStep, Sum, AwakeWeight;
    if v :| 0 <= v < |t.workers| && t.workers[v].Asleep? && t.queue != [] {
      assert s.workers[v].Asleep?;
    }
  }

  lemma WorkAwake(s: State, w: nat, timedOut: bool)
    requires MutexInv(s) && Noticed(s) && s.running && CanWork(s, w)
    ensures var t := WorkStep(s, w, timedOut);
      && t.notifies == s.notifies && t.running
      && (t.workers[w].Parking? || t.workers[w].Asleep? ==> t.queue == [])
      && (t.queue == [] || |t.queue| + AwakeWeight(s.workers[w]) <= |s.queue| + AwakeWeight(t.workers[w]))
      && (t.queue != [] ==> s.queue != [])
  {}

  lemma NotifyNoticed(s: State, w: nat)
    requires Noticed(s) && s.running && Enabled(s, NotifyOne(w))
    ensures Noticed(Apply(s, NotifyOne(w)))
  {
    if SomeAsleep(s) {
      SumUpdate(s.workers, w, Waking(false), AwakeWeight);
    }
  }

  lemma {:induction false} RunsNoticed(s: State, actions: seq<Action>)
    requires MutexInv(s) && Noticed(s) && Runs(s, actions)
    ensures MutexInv(After(s, actions)) && Noticed(After(s, actions))
    decreases |actions|
  {
    hide MutexInv, Noticed;
    if actions != [] {
      StepMutex(s, actions[0]);
      StepNoticed(s, actions[0]);
      RunsNoticed(Apply(s, actions[0]), actions[1..]);
    }
  }

  // From start-up, in every interleaving: as long as a worker sleeps, there are no more queued
  // tasks than awake workers and notifies on their way.
  lemma EnqueueIsNoticed(maxQueue: int, workerThreads: int, actions: seq<Action>)
    requires Runs(Start(maxQueue, workerThreads), actions)
    ensures var s := After(Start(maxQueue, workerThreads), actions);
      s.running && SomeAsleep(s) ==> |s.queue| <= Sum(s.workers, AwakeWeight) + s.notifies
  {
    RunsNoticed(Start(maxQueue, workerThreads), actions);
  }

  // Where a busy worker's task comes from.
  lemma WorkTask(s: State, w: nat, timedOut: bool)
    requires MutexInv(s) && CanWork(s, w)
    ensures var t := WorkStep(s, w, timedOut);
      s.taken <= t.taken
      && (Busy(t.workers[w]) ==>
            if s.workers[w].Popping? then t.workers[w].task == s.queue[0] && t.taken == s.taken + [s.queue[0]]
            else Busy(s.workers[w]) && t.workers[w].task == s.workers[w].task)
  {}

  // Every interleaving, from any good state: accepted tasks in order are the taken tasks in
  // order followed by the queue, the queue is bounded, no task is taken twice, and no two
  // workers use the sandbox directory of the same submission.
  lemma {:induction false} RunsKeepInv(s: State, actions: seq<Action>)
    requires Inv(s) && Runs(s, actions) && DistinctIds(After(s, actions).accepted)
    ensures Inv(After(s, actions))
    ensures DistinctIds(After(s, actions).taken)
    ensures s.accepted <= After(s, actions).accepted && s.taken <= After(s, actions).taken
    decreases |actions|
  {
    if actions == [] {
      TakenDistinct(s);
    } else {
      var t := Apply(s, actions[0]);
      AcceptedGrows(t, actions[1..]);
      StepMutex(s, actions[0]);
      StepFifo(s, actions[0]);
      assert DistinctIds(s.accepted);
      StepOwner(s, actions[0]);
      StepStaffed(s, actions[0]);
      StepNoticed(s, actions[0]);
      RunsKeepInv(t, actions[1..]);
    }
  }

  // The same from start-up.
  lemma EveryRunIsSafe(maxQueue: int, workerThreads: int, actions: seq<Action>)
    requires Runs(Start(maxQueue, workerThreads), actions)
    requires DistinctIds(After(Start(maxQueue, workerThreads), actions).accepted)
    ensures var s := After(Start(maxQueue, workerThreads), actions);
      && s.accepted == s.taken + s.queue && DistinctIds(s.taken)
      && (maxQueue >= 0 ==> |s.queue| <= maxQueue)
      && (-0x1_0000_0000_0000_0000 <= maxQueue < 0 ==> |s.queue| <= maxQueue + 0x1_0000_0000_0000_0000)
      && |s.workers| == (if workerThreads < 1 then 1 else workerThreads)
      && (forall v, w :: 0 <= v < w < |s.workers| && HoldsMutex(s.workers[v]) ==> !HoldsMutex(s.workers[w]))
      && (forall v, w :: 0 <= v < w < |s.workers| && Busy(s.workers[v]) && Busy(s.workers[w]) ==>
            s.workers[v].task.submissionId != s.workers[w].task.submissionId)
  {
    StartInv(maxQueue, workerThreads);
    RunsKeepInv(Start(maxQueue, workerThreads), actions);
    SizesKept(Start(maxQueue, workerThreads), actions);
    CapacityIs(maxQueue);
  }

  // A non-negative max_queue is the bound itself; a negative one is so many below 2^64.
  lemma CapacityIs(maxQueue: int)
    ensures maxQueue >= 0 ==> Capacity(maxQueue) == maxQueue
    ensures -0x1_0000_0000_0000_0000 <= maxQueue < 0 ==> Capacity(maxQueue) == maxQueue + 0x1_0000_0000_0000_0000
  {}

  lemma {:induction false} SizesKept(s: State, actions: seq<Action>)
    requires Runs(s, actions)
    ensures After(s, actions).capacity == s.capacity && |After(s, actions).workers| == |s.workers|
    decreases |actions|
  {
    if actions != [] {
      StepSizes(s, actions[0]);
      SizesKept(Apply(s, actions[0]), actions[1..]);
    }
  }

  lemma StepSizes(s: State, a: Action)
    requires Enabled(s, a)
    ensures Apply(s, a).capacity == s.capacity && |Apply(s, a).workers| == |s.workers|
  {}

  lemma TakenDistinct(s: State)
    requires FifoInv(s) && DistinctIds(s.accepted)
    ensures DistinctIds(s.taken)
  {
    assert forall i :: 0 <= i < |s.taken| ==> s.taken[i] == s.accepted[i];
  }

  lemma {:induction false} AcceptedGrows(s: State, actions: seq<Action>)
    requires Runs(s, actions)
    ensures s.accepted <= After(s, actions).accepted
    ensures s.running || !After(s, actions).running
    decreases |actions|
  {
    if actions != [] {
      AcceptedGrows(Apply(s, actions[0]), actions[1..]);
    }
  }

  // ---- Stopping ----

  // Tasks taken, plus the one a worker holding the mutex is already committed to take.
  ghost function Committed(s: State): nat {
    |s.taken| + Sum(s.workers, PoppingWeight)
  }

  function PoppingWeight(stage: Stage): nat { if stage.Popping? then 1 else 0 }

  lemma AtMostOnePopping(s: State)
    requires MutexInv(s)
    ensures Sum(s.workers, PoppingWeight) <= 1
  {
    if s.holder.None? {
      SumBounded(s.workers, PoppingWeight, 0);
    } else {
      var w := s.holder.value;
      SumSplit(s.workers, w, PoppingWeight);
      SumBounded(s.workers[..w], PoppingWeight, 0);
      SumBounded(s.workers[w + 1..], PoppingWeight, 0);
    }
  }

  lemma WakeOneSums(workers: seq<Stage>, w: nat)
    ensures Sum(WakeOne(workers, w), PoppingWeight) == Sum(workers, PoppingWeight)
    ensures Sum(WakeOne(workers, w), TaskRank) == Sum(workers, TaskRank)
    ensures Sum(WakeOne(workers, w), IdleRank) <= Sum(workers, IdleRank)
  {
    if w < |workers| && workers[w].Asleep? {
      SumUpdate(workers, w, Waking(false), PoppingWeight);
      SumUpdate(workers, w, Waking(false), TaskRank);
      SumUpdate(workers, w, Waking(false), IdleRank);
    }
  }

  lemma WakeAllPopping(workers: seq<Stage>)
    ensures Sum(WakeAll(workers), PoppingWeight) == Sum(workers, PoppingWeight)
    decreases |workers|
  {
    if workers != [] {
      assert WakeAll(workers)[1..] == WakeAll(workers[1..]);
      WakeAllPopping(workers[1..]);
    }
  }

  // Once stopped, a worker takes a task only if it was committed to it.
  lemma WorkCommitted(s: State, w: nat, timedOut: bool)
    requires CanWork(s, w) && !s.running
    ensures var t := WorkStep(s, w, timedOut);
      |t.workers| == |s.workers| && t.workers == s.workers[w := t.workers[w]]
      && |t.taken| + PoppingWeight(t.workers[w]) <= |s.taken| + PoppingWeight(s.workers[w])
  {}

  lemma HangingCommitted(s: State, w: nat)
    requires w < |s.workers| && s.workers[w].Judging?
    ensures PoppingWeight(Hanging(s.workers[w].task)) == PoppingWeight(s.workers[w])
  {}

  lemma StepCommitted(s: State, a: Action)
    requires MutexInv(s) && Enabled(s, a) && !s.running
    ensures Committed(Apply(s, a)) <= Committed(s)
  {
    hide WorkStep, MutexInv, PoppingWeight, Sum;
    match a
    case Work(w, timedOut) =>
      WorkCommitted(s, w, timedOut);
      SumUpdate(s.workers, w, Apply(s, a).workers[w], PoppingWeight);
    case Hang(w) =>
      SumUpdate(s.workers, w, Apply(s, a).workers[w], PoppingWeight);
      assert PoppingWeight(Apply(s, a).workers[w]) == PoppingWeight(s.workers[w]) by { HangingCommitted(s, w); }
    case NotifyAll => WakeAllPopping(s.workers);
    case NotifyOne(w) => WakeOneSums(s.workers, w);
    case Enqueue(_) =>
    case StopStore =>
  }

  lemma {:induction false} CommittedNeverGrows(s: State, actions: seq<Action>)
    requires MutexInv(s) && Runs(s, actions) && !s.running
    ensures Committed(After(s, actions)) <= Committed(s)
    decreases |actions|
  {
    if actions != [] {
      StepMutex(s, actions[0]);
      StepCommitted(s, actions[0]);
      CommittedNeverGrows(Apply(s, actions[0]), actions[1..]);
    }
  }

  // Once running_ is false at most one more task is ever dequeued, in all workers together.
  lemma AtMostOneTakenAfterStop(s: State, actions: seq<Action>)
    requires Inv(s) && !s.running && Runs(s, actions)
    ensures |After(s, actions).taken| <= |s.taken| + 1
  {
    CommittedNeverGrows(s, actions);
    AtMostOnePopping(s);
  }

  // And one more can be dequeued exactly when a worker is between its test and its pop.
  lemma TakenAfterStopIff(s: State)
    requires MutexInv(s) && !s.running
    ensures (exists actions :: Runs(s, actions) && |After(s, actions).taken| > |s.taken|)
      <==> exists w :: 0 <= w < |s.workers| && s.workers[w].Popping?
  {
    if w :| 0 <= w < |s.workers| && s.workers[w].Popping? {
      RunsCons(s, Work(w, false), []);
      assert |After(s, [Work(w, false)] + []).taken| > |s.taken|;
    } else {
      forall actions | Runs(s, actions) ensures |After(s, actions).taken| <= |s.taken| {
        CommittedNeverGrows(s, actions);
        SumBounded(s.workers, PoppingWeight, 0);
      }
    }
  }

  // How many steps a worker can still take once running_ is false.
  function StopRank(stage: Stage): nat {
    match stage
    case Exited => 0
    case Hanging(_) => 0
    case AtTop => 1
    case Rechecking => 2
    case Cleaning(_) => 2
    case Testing => 3
    case Judging(_) => 3
    case Locking => 4
    case Waking(_) => 4
    case Marking(_) => 4
    case Asleep => 5
    case Popping => 5
    case Parking => 6
  }

  function StepOf(w: nat): Action -> nat { (a: Action) => if a.Work? && a.worker == w then 1 else 0 }

  // The steps worker w takes in a run.
  ghost function OwnSteps(actions: seq<Action>, w: nat): nat { Sum(actions, StepOf(w)) }

  lemma StopProgress(s: State, a: Action, w: nat)
    requires MutexInv(s) && Enabled(s, a) && !s.running && w < |s.workers|
    ensures !Apply(s, a).running && |Apply(s, a).workers| == |s.workers|
    ensures StopRank(Apply(s, a).workers[w]) + StepOf(w)(a) <= StopRank(s.workers[w])
  {}

  // After the store no schedule lets a worker take more than six steps, whatever request threads
  // still do and whether or not the notify reaches anyone.
  lemma {:induction false} StopBound(s: State, actions: seq<Action>, w: nat)
    requires MutexInv(s) && !s.running && Runs(s, actions) && w < |s.workers|
    ensures var t := After(s, actions);
      MutexInv(t) && !t.running && |t.workers| == |s.workers|
      && OwnSteps(actions, w) + StopRank(t.workers[w]) <= StopRank(s.workers[w]) <= 6
    decreases |actions|
  {
    if actions != [] {
      StepMutex(s, actions[0]);
      StopProgress(s, actions[0], w);
      StopBound(Apply(s, actions[0]), actions[1..], w);
    }
  }

  // A worker with a task is blocked only if its call of judge hangs; and whoever waits for the
  // mutex waits for a worker that can move.
  lemma BlockedIff(s: State, w: nat)
    requires MutexInv(s) && w < |s.workers|
    ensures !CanWork(s, w) <==>
      || s.workers[w].Exited? || s.workers[w].Hanging?
      || (NeedsMutex(s.workers[w])
          && exists v :: 0 <= v < |s.workers| && v != w && HoldsMutex(s.workers[v]) && CanWork(s, v))
  {
    if s.holder.Some? {
      assert HoldsMutex(s.workers[s.holder.value]) && CanWork(s, s.holder.value);
    }
  }

  // Nobody can take another step, or all threads have ended, as the joins of shutdown wait for.
  ghost predicate AtRest(s: State) { forall w :: !CanWork(s, w) }

  ghost predicate AllExited(s: State) { forall w :: 0 <= w < |s.workers| ==> s.workers[w].Exited? }

  ghost predicate SomeHangs(s: State) { exists w :: 0 <= w < |s.workers| && s.workers[w].Hanging? }

  lemma AtRestShape(s: State)
    requires MutexInv(s) && AtRest(s)
    ensures forall w :: 0 <= w < |s.workers| ==> s.workers[w].Exited? || s.workers[w].Hanging?
  {
    forall w | 0 <= w < |s.workers| ensures s.workers[w].Exited? || s.workers[w].Hanging? {
      assert !CanWork(s, w);
      BlockedIff(s, w);
    }
  }

  ghost predicate Hangs(actions: seq<Action>) { exists i :: 0 <= i < |actions| && actions[i].Hang? }

  // A hanging worker stays as it is, and only a hanging call makes one.
  lemma {:induction false} HangingIff(s: State, actions: seq<Action>)
    requires Runs(s, actions)
    ensures SomeHangs(After(s, actions)) <==> SomeHangs(s) || Hangs(actions)
    decreases |actions|
  {
    if actions != [] {
      var a, rest := actions[0], actions[1..];
      HangingStep(s, a);
      HangingIff(Apply(s, a), rest);
      if i :| 0 <= i < |actions| && actions[i].Hang? {
        if i > 0 { assert rest[i - 1].Hang?; }
      }
      if i :| 0 <= i < |rest| && rest[i].Hang? { assert actions[i + 1].Hang?; }
    }
  }

  lemma HungOneStays(s: State, a: Action, w: nat)
    requires Enabled(s, a) && w < |s.workers| && s.workers[w].Hanging?
    ensures w < |Apply(s, a).workers| && Apply(s, a).workers[w] == s.workers[w]
  {}

  lemma HangingStep(s: State, a: Action)
    requires Enabled(s, a)
    ensures SomeHangs(Apply(s, a)) <==> SomeHangs(s) || a.Hang?
  {
    var t := Apply(s, a);
    if a.Hang? { assert t.workers[a.worker].Hanging?; }
    if w :| 0 <= w < |s.workers| && s.workers[w].Hanging? { assert t.workers[w].Hanging?; }
    if w :| 0 <= w < |t.workers| && t.workers[w].Hanging? { assert a.Hang? || s.workers[w].Hanging?; }
  }

  // So after the store every schedule comes to rest within six steps of each worker, and then
  // the joins return exactly if no call of judge hangs.
  lemma JoinsReturnIff(s: State, actions: seq<Action>)
    requires MutexInv(s) && !s.running && Runs(s, actions) && AtRest(After(s, actions))
    ensures AllExited(After(s, actions)) <==> !SomeHangs(s) && !Hangs(actions)
  {
    var t := After(s, actions);
    RunsMutex(s, actions);
    AtRestShape(t);
    HangingIff(s, actions);
  }

  lemma {:induction false} RunsMutex(s: State, actions: seq<Action>)
    requires MutexInv(s) && Runs(s, actions)
    ensures MutexInv(After(s, actions)) && |After(s, actions).workers| == |s.workers|
    decreases |actions|
  {
    if actions != [] {
      StepMutex(s, actions[0]);
      RunsMutex(Apply(s, actions[0]), actions[1..]);
    }
  }

  // ---- Progress while running ----

  // Steps still owed to accepted tasks: four per queued one, fewer per stage of a taken one.
  function TaskRank(stage: Stage): nat {
    match stage
    case Marking(_) => 3
    case Judging(_) => 2
    case Hanging(_) => 2
    case Cleaning(_) => 1
    case _ => 0
  }

  ghost function TaskWork(s: State): nat { 4 * |s.queue| + Sum(s.workers, TaskRank) }

  // Distance of an idle worker from Popping while the queue is not empty.
  function IdleRank(stage: Stage): nat {
    match stage
    case Popping => 0
    case Rechecking => 1
    case Testing => 2
    case Locking => 3
    case Waking(_) => 3
    case AtTop => 4
    case Asleep => 4
    case Parking => 5
    case _ => 0
  }

  ghost function DrainMeasure(s: State): nat { 5 * TaskWork(s) + Sum(s.workers, IdleRank) }

  predicate IsTaskStep(s: State, w: nat)
    requires w < |s.workers|
  {
    s.workers[w].Popping? || Busy(s.workers[w])
  }

  // A worker step never adds work; the steps that pop, mark, judge and clean each remove some.
  lemma TaskProgress(s: State, w: nat, timedOut: bool)
    requires MutexInv(s) && CanWork(s, w)
    ensures TaskWork(WorkStep(s, w, timedOut)) == TaskWork(s) - (if IsTaskStep(s, w) then 1 else 0)
  {
    SumUpdate(s.workers, w, WorkStep(s, w, timedOut).workers[w], TaskRank);
  }

  // While running with a non-empty queue every single worker step makes progress.
  lemma DrainProgress(s: State, w: nat, timedOut: bool)
    requires MutexInv(s) && CanWork(s, w) && s.running && s.queue != []
    ensures DrainMeasure(WorkStep(s, w, timedOut)) < DrainMeasure(s)
  {
    TaskProgress(s, w, timedOut);
    SumUpdate(s.workers, w, WorkStep(s, w, timedOut).workers[w], IdleRank);
  }

  // No submission arrives and the service is not stopped; notifies are still delivered, and any
  // call of judge may hang.
  ghost predicate OnlyWorkers(actions: seq<Action>) {
    forall i :: 0 <= i < |actions| ==> actions[i].Work? || actions[i].Hang? || actions[i].NotifyOne?
  }

  function WorkWeight(a: Action): nat { if a.Work? then 1 else 0 }

  ghost function WorkSteps(actions: seq<Action>): nat { Sum(actions, WorkWeight) }

  // Without new submissions, any schedule with DrainMeasure worker steps empties the queue at
  // some point. No fairness is assumed and no notify is relied on.
  lemma {:induction false} QueueDrains(s: State, actions: seq<Action>) returns (n: nat)
    requires MutexInv(s) && s.running && Runs(s, actions) && OnlyWorkers(actions)
    requires WorkSteps(actions) >= DrainMeasure(s)
    ensures n <= |actions| && Runs(s, actions[..n]) && After(s, actions[..n]).queue == []
    decreases |actions|
  {
    if s.queue == [] {
      n := 0;
      assert actions[..0] == [];
    } else {
      assert DrainMeasure(s) > 0 && actions != [];
      var a := actions[0];
      StepMutex(s, a);
      if a.Work? { DrainProgress(s, a.worker, a.timedOut); } else { OthersKeepWork(s, a); }
      var m := QueueDrains(Apply(s, a), actions[1..]);
      n := m + 1;
      assert actions[..n][0] == a && actions[..n][1..] == actions[1..][..m];
    }
  }

  lemma OthersKeepWork(s: State, a: Action)
    requires (a.Hang? || a.NotifyOne?) && Enabled(s, a)
    ensures Apply(s, a).running == s.running && TaskWork(Apply(s, a)) == TaskWork(s)
    ensures DrainMeasure(Apply(s, a)) <= DrainMeasure(s)
  {
    if a.Hang? {
      SumUpdate(s.workers, a.worker, Apply(s, a).workers[a.worker], TaskRank);
      SumUpdate(s.workers, a.worker, Apply(s, a).workers[a.worker], IdleRank);
    } else {
      WakeOneSums(s.workers, a.worker);
    }
  }

  // Once the queue is empty, each step of a worker brings its own task closer to its end.
  lemma EmptyQueueStep(s: State, a: Action, w: nat)
    requires MutexInv(s) && Enabled(s, a) && (a.Work? || a.Hang? || a.NotifyOne?) && s.queue == [] && w < |s.workers|
    ensures Apply(s, a).queue == [] && |Apply(s, a).workers| == |s.workers|
    ensures var rank := TaskRank(Apply(s, a).workers[w]);
      rank + StepOf(w)(a) <= TaskRank(s.workers[w]) || (rank == 0 && TaskRank(s.workers[w]) == 0)
  {}

  lemma {:induction false} EmptyQueueRun(s: State, actions: seq<Action>, w: nat)
    requires MutexInv(s) && Runs(s, actions) && OnlyWorkers(actions) && s.queue == [] && w < |s.workers|
    ensures After(s, actions).queue == [] && |After(s, actions).workers| == |s.workers|
    ensures var rank := TaskRank(After(s, actions).workers[w]);
      rank == 0 || rank + OwnSteps(actions, w) <= TaskRank(s.workers[w])
    decreases |actions|
  {
    if actions != [] {
      StepMutex(s, actions[0]);
      EmptyQueueStep(s, actions[0], w);
      EmptyQueueRun(Apply(s, actions[0]), actions[1..], w);
    }
  }

  // When no task is queued or in a worker's hands, every accepted task has been taken and finished.
  lemma NoWorkLeftIff(s: State)
    requires FifoInv(s)
    ensures TaskWork(s) == 0 <==>
      (s.taken == s.accepted && forall w :: 0 <= w < |s.workers| ==> !Busy(s.workers[w]))
  {
    if TaskWork(s) == 0 {
      forall w | 0 <= w < |s.workers| ensures !Busy(s.workers[w]) {
        SumMember(s.workers, w, TaskRank);
      }
    }
    if s.taken == s.accepted && forall w :: 0 <= w < |s.workers| ==> !Busy(s.workers[w]) {
      assert |s.accepted| == |s.taken| + |s.queue|;
      SumBounded(s.workers, TaskRank, 0);
    }
  }

  // The worker hangs in the end, or has had three turns.
  ghost predicate Served(t: State, actions: seq<Action>, w: nat) {
    w < |t.workers| && (t.workers[w].Hanging? || OwnSteps(actions, w) >= 3)
  }

  // Every schedule, not only a chosen one, finishes all accepted tasks but those whose call of
  // judge hangs: it is enough that the workers take DrainMeasure steps together, and that each
  // worker which does not hang then gets three turns.
  lemma AllTasksFinish(s: State, first: seq<Action>, more: seq<Action>)
    requires MutexInv(s) && Staffed(s) && s.running && Runs(s, first + more) && OnlyWorkers(first + more)
    requires WorkSteps(first) >= DrainMeasure(s)
    requires forall w: nat :: w < |s.workers| ==> Served(After(s, first + more), more, w)
    ensures var t := After(s, first + more);
      t.queue == [] && |t.workers| == |s.workers|
      && (forall w :: 0 <= w < |t.workers| && Busy(t.workers[w]) ==> t.workers[w].Hanging?)
      && (TaskWork(t) == 0 <==> !SomeHangs(s) && !Hangs(first + more))
  {
    hide MutexInv, Served, Enabled, Apply, Sum;
    var all := first + more;
    var n := DrainPoint(s, first, more);
    var drained, rest := After(s, all[..n]), all[n..];
    RunsMutex(s, all[..n]);
    forall w: nat | w < |drained.workers| ensures Served(After(drained, rest), rest, w) {
      assert Served(After(s, all), more, w);
    }
    FinishedFrom(drained, rest);
    HangingIff(s, all);
  }

  // The queue is empty at some point, and after it come at least the turns of the second part.
  lemma DrainPoint(s: State, first: seq<Action>, more: seq<Action>) returns (n: nat)
    requires MutexInv(s) && s.running && Runs(s, first + more) && OnlyWorkers(first + more)
    requires WorkSteps(first) >= DrainMeasure(s)
    ensures var all := first + more;
      n <= |all| && Runs(s, all[..n]) && Runs(After(s, all[..n]), all[n..])
      && After(After(s, all[..n]), all[n..]) == After(s, all) && After(s, all[..n]).queue == []
    ensures forall t: State, w: nat :: Served(t, more, w) ==> Served(t, (first + more)[n..], w)
  {
    hide MutexInv, Served, Enabled, Apply;
    var all := first + more;
    RunsSplit(s, first, more);
    assert forall i :: 0 <= i < |first| ==> first[i] == all[i];
    n := QueueDrains(s, first);
    assert all[..n] == first[..n] && all[n..] == first[n..] + more && all[..n] + all[n..] == all;
    RunsSplit(s, all[..n], all[n..]);
    forall t: State, w: nat | Served(t, more, w) ensures Served(t, all[n..], w) {
      ServedLonger(t, first[n..], more, w);
    }
  }

  lemma ServedLonger(t: State, before: seq<Action>, actions: seq<Action>, w: nat)
    requires Served(t, actions, w)
    ensures Served(t, before + actions, w)
  {
    SumConcat(before, actions, StepOf(w));
  }

  lemma FinishedFrom(s: State, actions: seq<Action>)
    requires MutexInv(s) && Runs(s, actions) && OnlyWorkers(actions) && s.queue == [] && s.workers != []
    requires forall w: nat :: w < |s.workers| ==> Served(After(s, actions), actions, w)
    ensures var t := After(s, actions);
      t.queue == [] && |t.workers| == |s.workers|
      && (forall w :: 0 <= w < |t.workers| && Busy(t.workers[w]) ==> t.workers[w].Hanging?)
      && (TaskWork(t) == 0 <==> !SomeHangs(t))
  {
    var t := After(s, actions);
    EmptyQueueRun(s, actions, 0);
    forall w: nat | w < |t.workers| ensures Busy(t.workers[w]) ==> t.workers[w].Hanging? {
      assert Served(After(s, actions), actions, w);
      EmptyQueueRun(s, actions, w);
    }
    NothingButHanging(t);
  }

  lemma NothingButHanging(s: State)
    requires s.queue == [] && forall w :: 0 <= w < |s.workers| && Busy(s.workers[w]) ==> s.workers[w].Hanging?
    ensures TaskWork(s) == 0 <==> !SomeHangs(s)
  {
    if w :| 0 <= w < |s.workers| && s.workers[w].Hanging? {
      SumMember(s.workers, w, TaskRank);
    } else {
      SumBounded(s.workers, TaskRank, 0);
    }
  }

  lemma {:induction false} RunsSplit(s: State, a: seq<Action>, b: seq<Action>)
    requires Runs(s, a + b)
    ensures Runs(s, a) && Runs(After(s, a), b) && After(s, a + b) == After(After(s, a), b)
    decreases |a|
  {
    if a == [] {
      assert a + b == b;
    } else {
      assert (a + b)[1..] == a[1..] + b;
      RunsSplit(Apply(s, a[0]), a[1..], b);
    }
  }

  // From every good state of a running service the workers can finish all accepted work if and
  // only if none of them hangs.
  lemma WorkCanFinishIff(s: State)
    requires Inv(s) && s.running
    ensures (exists actions :: Runs(s, actions) && OnlyWorkers(actions) && TaskWork(After(s, actions)) == 0)
      <==> !SomeHangs(s)
  {
    if SomeHangs(s) {
      forall actions | Runs(s, actions) ensures TaskWork(After(s, actions)) > 0 {
        HangingIff(s, actions);
        var t := After(s, actions);
        var w :| 0 <= w < |t.workers| && t.workers[w].Hanging?;
        SumMember(t.workers, w, TaskRank);
      }
    } else {
      var actions := FinishWork(s);
    }
  }

  lemma {:induction false} FinishWork(s: State) returns (actions: seq<Action>)
    requires MutexInv(s) && Staffed(s) && s.running && !SomeHangs(s)
    ensures Runs(s, actions) && OnlyWorkers(actions) && TaskWork(After(s, actions)) == 0
    decreases DrainMeasure(s)
  {
    if TaskWork(s) == 0 {
      actions := [];
    } else {
      var w := PickWorker(s);
      var a := Work(w, false);
      StepMutex(s, a);
      StepStaffed(s, a);
      HangingStep(s, a);
      WorkKeepsFlag(s, w, false);
      var rest := FinishWork(Apply(s, a));
      RunsCons(s, a, rest);
      actions := [a] + rest;
    }
  }

  lemma WorkKeepsFlag(s: State, w: nat, timedOut: bool)
    requires CanWork(s, w)
    ensures WorkStep(s, w, timedOut).running == s.running
  {}

  // A worker whose step brings the work closer to its end.
  lemma PickWorker(s: State) returns (w: nat)
    requires MutexInv(s) && Staffed(s) && s.running && !SomeHangs(s) && TaskWork(s) > 0
    ensures CanWork(s, w) && DrainMeasure(WorkStep(s, w, false)) < DrainMeasure(s)
  {
    if s.queue != [] {
      w := if s.holder.Some? then s.holder.value else 0;
      assert !s.workers[w].Exited? && !s.workers[w].Hanging?;
      DrainProgress(s, w, false);
    } else {
      w := BusyWorker(s);
      TaskProgress(s, w, false);
      SumUpdate(s.workers, w, WorkStep(s, w, false).workers[w], IdleRank);
    }
  }

  // No queued task ever waits for a timeout: while the service runs and not every worker hangs,
  // a notify can be delivered or a worker that is not asleep can move.
  lemma NoTimeoutNeeded(s: State)
    requires MutexInv(s) && Staffed(s) && Noticed(s) && s.running && s.queue != []
    requires exists w :: 0 <= w < |s.workers| && !s.workers[w].Hanging?
    ensures (exists w :: Enabled(s, NotifyOne(w))) || (exists w: nat :: CanWork(s, w) && !s.workers[w].Asleep?)
  {
    if s.notifies > 0 {
      var w: nat := if SomeAsleep(s) then Sleeper(s) else 0;
      assert Enabled(s, NotifyOne(w));
    } else {
      var w :| 0 <= w < |s.workers| && !s.workers[w].Hanging?;
      var v := if SomeAsleep(s) then Looker(s) else w;
      assert !s.workers[v].Exited?;
      if s.holder.Some? {
        assert HoldsMutex(s.workers[s.holder.value]) && CanWork(s, s.holder.value);
      } else {
        assert CanWork(s, v) && !s.workers[v].Asleep?;
      }
    }
  }

  ghost function Sleeper(s: State): (w: nat)
    requires SomeAsleep(s)
    ensures w < |s.workers| && s.workers[w].Asleep?
  {
    var w :| 0 <= w < |s.workers| && s.workers[w].Asleep?; w
  }

  ghost function Looker(s: State): (w: nat)
    requires s.running && SomeAsleep(s) && Noticed(s) && s.queue != [] && s.notifies == 0
    ensures w < |s.workers| && AwakeWeight(s.workers[w]) == 1
  {
    SomeoneLooks(s);
    var w :| 0 <= w < |s.workers| && AwakeWeight(s.workers[w]) == 1; w
  }

  lemma SomeoneLooks(s: State)
    requires Sum(s.workers, AwakeWeight) > 0
    ensures exists w :: 0 <= w < |s.workers| && AwakeWeight(s.workers[w]) == 1
  {
    if forall w :: 0 <= w < |s.workers| ==> AwakeWeight(s.workers[w]) == 0 {
      SumBounded(s.workers, AwakeWeight, 0);
    }
  }

  lemma BusyWorker(s: State) returns (w: nat)
    requires Sum(s.workers, TaskRank) > 0
    ensures w < |s.workers| && Busy(s.workers[w])
  {
    if forall v :: 0 <= v < |s.workers| ==> !Busy(s.workers[v]) {
      SumBounded(s.workers, TaskRank, 0);
    }
    var v :| 0 <= v < |s.workers| && Busy(s.workers[v]);
    w := v;
  }

  // ---- The two races of shutdown ----

  // shutdown stores running_ without the mutex, so its notify can be missed. It is missed by
  // exactly the workers that have found the wait predicate false and are not asleep yet: they,
  // and no others, can be asleep after it.
  lemma NotifyMissedIff(s: State, w: nat)
    requires MutexInv(s) && !s.running && w < |s.workers|
    ensures (exists actions :: Runs(Apply(s, NotifyAll), actions) && AsleepIn(After(Apply(s, NotifyAll), actions), w))
      <==> s.workers[w].Parking?
  {
    var t := Apply(s, NotifyAll);
    if s.workers[w].Parking? {
      RunsCons(t, Work(w, false), []);
      assert AsleepIn(After(t, [Work(w, false)] + []), w);
    } else {
      forall actions | Runs(t, actions) ensures !AsleepIn(After(t, actions), w) {
        StaysAwake(t, actions, w);
      }
    }
  }

  ghost predicate AsleepIn(s: State, w: nat) { w < |s.workers| && s.workers[w].Asleep? }

  lemma {:induction false} StaysAwake(s: State, actions: seq<Action>, w: nat)
    requires Runs(s, actions) && !s.running && w < |s.workers| && !s.workers[w].Asleep? && !s.workers[w].Parking?
    ensures !AsleepIn(After(s, actions), w)
    decreases |actions|
  {
    if actions != [] {
      StaysAwake(Apply(s, actions[0]), actions[1..], w);
    }
  }

  // Such a worker sleeps on until its timeout, a spurious wake-up, or the notify of a later
  // enqueue that picks it. Nothing the other workers do ends its sleep.
  lemma {:induction false} MissedSleeperStays(s: State, actions: seq<Action>, w: nat)
    requires Runs(s, actions) && AsleepIn(s, w)
    requires forall i :: 0 <= i < |actions| ==>
      !actions[i].NotifyAll? && !((actions[i].Work? || actions[i].NotifyOne?) && actions[i].worker == w)
    ensures AsleepIn(After(s, actions), w)
    decreases |actions|
  {
    if actions != [] {
      MissedSleeperStays(Apply(s, actions[0]), actions[1..], w);
    }
  }

  // Both races happen: in every configuration each worker can be the one that parks, or, if
  // anything can be queued, the one that is about to pop, when running_ becomes false.
  lemma RacesReachable(maxQueue: int, workerThreads: int, w: nat, task: SubmitTask)
      returns (parked: seq<Action>, popping: seq<Action>)
    requires w < |Start(maxQueue, workerThreads).workers|
    ensures var s := Start(maxQueue, workerThreads);
      Runs(s, parked) && var t := After(s, parked); !t.running && w < |t.workers| && t.workers[w].Parking?
    ensures var s := Start(maxQueue, workerThreads); Capacity(maxQueue) > 0 ==>
      Runs(s, popping) && var t := After(s, popping); !t.running && w < |t.workers| && t.workers[w].Popping?
  {
    var s, a := Start(maxQueue, workerThreads), Work(w, false);
    parked := ToRecheck(s, w);
    popping := [];
    if Capacity(maxQueue) > 0 {
      var s1 := Apply(s, Enqueue(task));
      var rest := ToRecheck(s1, w);
      RunsCons(s, Enqueue(task), rest);
      popping := [Enqueue(task)] + rest;
    }
  }

  // From the top of its loop: three steps to the outcome of the wait predicate, then, if it was
  // true, one to the pop; then the store.
  lemma ToRecheck(s: State, w: nat) returns (actions: seq<Action>)
    requires s.running && s.holder.None? && w < |s.workers| && s.workers[w].AtTop?
    ensures Runs(s, actions)
    ensures var t := After(s, actions);
      !t.running && w < |t.workers| && t.workers[w] == if s.queue == [] then Parking else Popping
  {
    var a := Work(w, false);
    var s1 := Apply(s, a);
    var s2 := Apply(s1, a);
    var s3 := Apply(s2, a);
    if s.queue == [] {
      RunsCons(s3, StopStore, []);
      actions := [StopStore] + [];
    } else {
      var s4 := Apply(s3, a);
      RunsCons(s4, StopStore, []);
      RunsCons(s3, a, [StopStore] + []);
      actions := [a] + ([StopStore] + []);
    }
    RunsCons(s2, a, actions);
    RunsCons(s1, a, [a] + actions);
    RunsCons(s, a, [a] + ([a] + actions));
    actions := [a] + ([a] + ([a] + actions));
  }

  lemma RunsCons(s: State, a: Action, rest: seq<Action>)
    requires Enabled(s, a) && Runs(Apply(s, a), rest)
    ensures Runs(s, [a] + rest) && After(s, [a] + rest) == After(Apply(s, a), rest)
  {
    assert ([a] + rest)[1..] == rest;
  }
}
