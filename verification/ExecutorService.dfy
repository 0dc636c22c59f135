// ExecutorService as an object: its queue, mutex, flag and workers, updated in place. Every
// state of the object is one that the step system of module Executor reaches from start-up.
module ExecutorService {
  import opened Common
  import opened Executor

  // What the other threads do during one sleep of a worker, and whether the sleep, unless a
  // notify ends it, ends with the timeout.
  datatype Nap = Nap(arrivals: seq<SubmitTask>, stopped: bool, timedOut: bool)

  // No worker moved, apart from sleepers that were notified.
  ghost predicate OnlyWoken(before: seq<Stage>, after: seq<Stage>) {
    |after| == |before| && forall v :: 0 <= v < |before| ==>
      after[v] == before[v] || (before[v].Asleep? && after[v] == Waking(false))
  }

  ghost predicate OthersOnlyWoken(before: seq<Stage>, after: seq<Stage>, w: nat) {
    |after| == |before| && forall v :: 0 <= v < |before| && v != w ==>
      after[v] == before[v] || (before[v].Asleep? && after[v] == Waking(false))
  }

  // One sleeper was woken, if there was any.
  ghost predicate OneWoken(before: seq<Stage>, after: seq<Stage>) {
    || (after == before && forall v :: 0 <= v < |before| ==> !before[v].Asleep?)
    || (exists v :: 0 <= v < |before| && before[v].Asleep? && after == before[v := Waking(false)])
  }

  // One notify was delivered.
  ghost predicate Notified(before: State, after: State) {
    exists w: nat :: Enabled(before, NotifyOne(w)) && after == Apply(before, NotifyOne(w))
  }

  class Service {
    var running: bool
    const capacity: nat
    var queue: seq<SubmitTask>
    var holder: Option<nat>
    var workers: seq<Stage>
    ghost var notifies: nat            // notifies of enqueue on their way
    ghost var accepted: seq<SubmitTask>
    ghost var taken: seq<SubmitTask>
    ghost const maxQueue: int
    ghost const workerThreads: int
    ghost var history: seq<Action>     // the steps taken since start-up

    ghost function View(): State
      reads this
    {
      State(running, capacity, queue, holder, workers, notifies, accepted, taken)
    }

    ghost predicate Valid()
      reads this
    {
      && Runs(Start(maxQueue, workerThreads), history)
      && View() == After(Start(maxQueue, workerThreads), history)
    }

    // init
    constructor(maxQueue: int, workerThreads: int)
      ensures Valid() && View() == Start(maxQueue, workerThreads) && history == []
      ensures this.maxQueue == maxQueue && this.workerThreads == workerThreads
      ensures running && queue == [] && |workers| == (if workerThreads < 1 then 1 else workerThreads)
    {
      var n: nat := if workerThreads < 1 then 1 else workerThreads;
      this.maxQueue, this.workerThreads := maxQueue, workerThreads;
      running, capacity, queue, holder := true, Capacity(maxQueue), [], None;
      workers := seq(n, i => AtTop);
      notifies, accepted, taken, history := 0, [], [], [];
    }

    // What holds of every state of the object.
    lemma Facts()
      requires Valid()
      ensures MutexInv(View()) && FifoInv(View()) && Staffed(View()) && capacity == Capacity(maxQueue)
    {
      StartInv(maxQueue, workerThreads);
      RunFacts(Start(maxQueue, workerThreads), history);
    }

    // Records a step that has just been made from the state before.
    ghost method Note(before: State, a: Action)
      requires Runs(Start(maxQueue, workerThreads), history)
      requires before == After(Start(maxQueue, workerThreads), history)
      requires Enabled(before, a) && View() == Apply(before, a)
      modifies this`history
      ensures Valid() && history == old(history) + [a]
    {
      RunsAppend(Start(maxQueue, workerThreads), history, a);
      history := history + [a];
    }

    // enqueue, with the mutex free: the critical section, then the notify.
    method Enqueue(task: SubmitTask) returns (queued: bool)
      requires Valid() && holder.None?
      modifies this
      ensures Valid() && old(history) <= history
      ensures queued <==> |old(queue)| < Capacity(maxQueue)
      ensures maxQueue >= 0 ==> (queued <==> |old(queue)| < maxQueue)
      ensures -0x1_0000_0000_0000_0000 <= maxQueue < 0 ==>
        (queued <==> |old(queue)| < maxQueue + 0x1_0000_0000_0000_0000)
      ensures queued ==> queue == old(queue) + [task] && accepted == old(accepted) + [task]
      ensures queued ==> OneWoken(old(workers), workers)
      ensures if queued then Notified(TryEnqueue(old(View()), task), View()) else View() == old(View())
      ensures !queued ==> queue == old(queue) && accepted == old(accepted) && workers == old(workers)
      ensures running == old(running) && holder.None? && taken == old(taken) && notifies == old(notifies)
    {
      Facts();
      CapacityIs(maxQueue);
      ghost var before := View();
      queued := |queue| < capacity;
      if queued {
        queue, accepted, notifies := queue + [task], accepted + [task], notifies + 1;
      }
      Note(before, Action.Enqueue(task));
      if queued {
        NotifyOne();
      }
    }

    // Wakes a sleeper; which one is up to the condition variable, here the first.
    method NotifyOne()
      requires Valid() && notifies > 0
      modifies this`workers, this`notifies, this`history
      ensures Valid() && old(history) <= history && notifies == old(notifies) - 1
      ensures OneWoken(old(workers), workers) && Notified(old(View()), View())
    {
      ghost var before := View();
      var w := 0;
      while w < |workers| && !workers[w].Asleep?
        invariant 0 <= w <= |workers| && forall v :: 0 <= v < w ==> !workers[v].Asleep?
      {
        w := w + 1;
      }
      notifies := notifies - 1;
      if w < |workers| {
        workers := workers[w := Waking(false)];
      }
      assert Enabled(before, Action.NotifyOne(w)) && View() == Apply(before, Action.NotifyOne(w));
      Note(before, Action.NotifyOne(w));
    }

    method EnqueueAll(tasks: seq<SubmitTask>)
      requires Valid() && holder.None?
      modifies this
      ensures Valid() && old(history) <= history && holder.None?
      ensures OnlyWoken(old(workers), workers) && running == old(running) && taken == old(taken)
      ensures workers != old(workers) ==> queue != []
    {
      hide Valid;
      var i := 0;
      while i < |tasks|
        invariant 0 <= i <= |tasks| && Valid() && holder.None? && old(history) <= history
        invariant OnlyWoken(old(workers), workers) && running == old(running) && taken == old(taken)
        invariant workers != old(workers) ==> queue != []
      {
        var _ := Enqueue(tasks[i]);
        i := i + 1;
      }
    }

    // -- The steps of worker_loop --

    // The loop condition.
    method ReadRunning(w: nat) returns (again: bool)
      requires Valid() && w < |workers| && workers[w].AtTop?
      modifies this`workers, this`history
      ensures Valid() && old(history) <= history
      ensures again == running && workers == old(workers)[w := if again then Locking else Exited]
    {
      ghost var before := View();
      again := running;
      workers := workers[w := if again then Locking else Exited];
      Note(before, Work(w, false));
    }

    // Taking queue_mtx_, first or again after the wait.
    method TakeMutex(w: nat)
      requires Valid() && w < |workers| && NeedsMutex(workers[w]) && holder.None?
      modifies this`workers, this`holder, this`history
      ensures Valid() && old(history) <= history && holder == Some(w)
      ensures workers == old(workers)[w := if old(workers)[w] == Waking(true) then Rechecking else Testing]
    {
      ghost var before := View();
      holder := Some(w);
      workers := workers[w := if workers[w].Waking? && workers[w].timedOut then Rechecking else Testing];
      Note(before, Work(w, false));
    }

    // The predicate passed to wait_for.
    method TestPredicate(w: nat) returns (ready: bool)
      requires Valid() && w < |workers| && workers[w].Testing?
      modifies this`workers, this`history
      ensures Valid() && old(history) <= history
      ensures ready == (!running || queue != []) && workers == old(workers)[w := if ready then Rechecking else Parking]
    {
      ghost var before := View();
      ready := !running || queue != [];
      workers := workers[w := if ready then Rechecking else Parking];
      Note(before, Work(w, false));
    }

    method Park(w: nat)
      requires Valid() && w < |workers| && workers[w].Parking?
      modifies this`workers, this`holder, this`history
      ensures Valid() && old(history) <= history && holder.None? && workers == old(workers)[w := Asleep]
    {
      ghost var before := View();
      holder := None;
      workers := workers[w := Asleep];
      Note(before, Work(w, false));
    }

    method Wake(w: nat, timedOut: bool)
      requires Valid() && w < |workers| && workers[w].Asleep?
      modifies this`workers, this`history
      ensures Valid() && old(history) <= history && workers == old(workers)[w := Waking(timedOut)]
    {
      ghost var before := View();
      workers := workers[w := Waking(timedOut)];
      Note(before, Work(w, timedOut));
    }

    // One sleep: the mutex is released, others may submit or stop the service, and the worker
    // wakes up, notified or not, and takes the mutex again.
    method Sleep(w: nat, nap: Nap)
      requires Valid() && w < |workers| && workers[w].Parking?
      modifies this
      ensures Valid() && old(history) <= history && holder == Some(w) && w < |workers|
      ensures workers[w].Testing? || (nap.timedOut && workers[w].Rechecking?)
      ensures nap.timedOut && workers[w].Testing? ==> queue != []
      ensures OthersOnlyWoken(old(workers), workers, w)
      ensures running == (old(running) && !nap.stopped) && taken == old(taken)
    {
      hide Valid;
      Park(w);
      EnqueueAll(nap.arrivals);
      if nap.stopped { StoreStop(); }
      if workers[w].Asleep? { Wake(w, nap.timedOut); }
      TakeMutex(w);
    }

    // The test after the wait; when it fails the mutex is released and the loop continues.
    method Recheck(w: nat) returns (proceed: bool)
      requires Valid() && w < |workers| && workers[w].Rechecking?
      modifies this`workers, this`holder, this`history
      ensures Valid() && old(history) <= history && proceed == (running && queue != [])
      ensures workers == old(workers)[w := if proceed then Popping else AtTop]
      ensures holder == if proceed then old(holder) else None
    {
      ghost var before := View();
      proceed := running && queue != [];
      if proceed {
        workers := workers[w := Popping];
      } else {
        workers := workers[w := AtTop];
        holder := None;
      }
      Note(before, Work(w, false));
    }

    // Takes the front task and releases the mutex. The queue is never empty here, even though
    // running_ may have changed since the test.
    method Pop(w: nat) returns (task: SubmitTask)
      requires Valid() && w < |workers| && workers[w].Popping?
      modifies this`workers, this`holder, this`queue, this`taken, this`history
      ensures Valid() && old(history) <= history && holder.None?
      ensures old(queue) == [task] + queue && taken == old(taken) + [task]
      ensures workers == old(workers)[w := Marking(task)]
    {
      Facts();
      ghost var before := View();
      task := queue[0];
      queue, taken := queue[1..], taken + [task];
      workers := workers[w := Marking(task)];
      holder := None;
      Note(before, Work(w, false));
    }

    // One of the steps outside the mutex that mark, judge and clean up one task.
    method Advance(w: nat)
      requires Valid() && w < |workers| && Busy(workers[w]) && !workers[w].Hanging?
      modifies this`workers, this`history
      ensures Valid() && old(history) <= history
      ensures workers == old(workers)[w := match old(workers)[w]
                                           case Marking(task) => Judging(task)
                                           case Judging(task) => Cleaning(task)
                                           case _ => AtTop]
    {
      ghost var before := View();
      match workers[w] {
        case Marking(task) => workers := workers[w := Judging(task)];
        case Judging(task) => workers := workers[w := Cleaning(task)];
        case Cleaning(_) => workers := workers[w := AtTop];
      }
      Note(before, Work(w, false));
    }

    // The whole way of one task outside the mutex.
    method Process(w: nat)
      requires Valid() && w < |workers| && workers[w].Marking?
      modifies this`workers, this`history
      ensures Valid() && old(history) <= history && workers == old(workers)[w := AtTop]
    {
      hide Valid;
      Advance(w);
      Advance(w);
      Advance(w);
    }

    // wait_for, from the first test of its predicate on.
    method Wait(w: nat, naps: seq<Nap>)
      requires Valid() && w < |workers| && workers[w].Testing? && holder == Some(w)
      requires naps != [] && naps[|naps| - 1].timedOut
      modifies this
      ensures Valid() && old(history) <= history && holder == Some(w) && taken == old(taken)
      ensures w < |workers| && workers[w].Rechecking? && OthersOnlyWoken(old(workers), workers, w)
      ensures !old(running) ==> !running
      ensures !old(running) || old(queue) != [] ==> running == old(running) && queue == old(queue)
    {
      hide Valid;
      var ready := TestPredicate(w);
      var i, late := 0, false;
      while !ready && !late
        invariant Valid() && old(history) <= history && holder == Some(w) && taken == old(taken)
        invariant 0 <= i <= |naps| && (ready || late || i < |naps|)
        invariant w < |workers| && OthersOnlyWoken(old(workers), workers, w)
        invariant if ready || late then workers[w].Rechecking? else workers[w].Parking?
        invariant !old(running) || old(queue) != [] ==> ready && running == old(running) && queue == old(queue)
        decreases |naps| - i
      {
        var nap := naps[i];
        i := i + 1;
        Sleep(w, nap);
        late := workers[w].Rechecking?;
        if !late { ready := TestPredicate(w); }
      }
    }

    // What follows the wait: back to the top of the loop, with or without the front task.
    method ProcessFront(w: nat) returns (task: Option<SubmitTask>)
      requires Valid() && w < |workers| && workers[w].Rechecking?
      modifies this`workers, this`holder, this`queue, this`taken, this`history
      ensures Valid() && old(history) <= history && holder.None? && workers == old(workers)[w := AtTop]
      ensures task.Some? <==> running && old(queue) != []
      ensures taken == old(taken) + (if task.Some? then [task.value] else [])
      ensures old(queue) == (if task.Some? then [task.value] else []) + queue
    {
      hide Valid;
      Facts();
      task := None;
      var proceed := Recheck(w);
      if proceed {
        var front := Pop(w);
        task := Some(front);
        Process(w);
      }
    }

    // One iteration of worker_loop: test the flag, wait until there is a task or the service
    // stops, and process the front task. A waiting task is taken without sleeping; without one
    // the worker sleeps, and comes back empty-handed only when stopped or out of time. The last
    // nap given is one that lasts the full second.
    method Iterate(w: nat, naps: seq<Nap>) returns (task: Option<SubmitTask>)
      requires Valid() && holder.None? && w < |workers| && workers[w].AtTop?
      requires naps != [] && naps[|naps| - 1].timedOut
      modifies this
      ensures Valid() && old(history) <= history && holder.None?
      ensures w < |workers| && workers[w] == if old(running) then AtTop else Exited
      ensures OthersOnlyWoken(old(workers), workers, w)
      ensures taken == old(taken) + (if task.Some? then [task.value] else [])
      ensures accepted == taken + queue && |queue| <= Capacity(maxQueue)
      ensures if !old(running) then task.None? && !running && queue == old(queue)
              else if old(queue) != []
              then running && task == Some(old(queue)[0]) && old(queue) == [task.value] + queue
              else task.None? ==> !running || queue == []
      ensures task.Some? ==> running
    {
      Facts();
      hide Valid;
      task := None;
      var again := ReadRunning(w);
      if again {
        TakeMutex(w);
        Wait(w, naps);
        task := ProcessFront(w);
      }
      Facts();
    }

    // -- The steps of shutdown --

    // Clears running_ without taking the mutex.
    method StoreStop()
      requires Valid()
      modifies this`running, this`history
      ensures Valid() && history == old(history) + [StopStore] && !running
    {
      ghost var before := View();
      running := false;
      Note(before, StopStore);
    }

    // shutdown up to its joins: nobody is asleep any more, but a worker that is parking keeps on.
    method Shutdown()
      requires Valid()
      modifies this`running, this`workers, this`history
      ensures Valid() && history == old(history) + [StopStore, NotifyAll] && !running
      ensures |workers| == |old(workers)|
      ensures forall w :: 0 <= w < |workers| ==>
        workers[w] == if old(workers)[w].Asleep? then Waking(false) else old(workers)[w]
    {
      StoreStop();
      ghost var before := View();
      var i := 0;
      ghost var was := workers;
      while i < |workers|
        invariant 0 <= i <= |workers| == |was| && !running && history == old(history) + [StopStore]
        invariant forall j :: 0 <= j < i ==> workers[j] == WakeAll(was)[j]
        invariant forall j :: i <= j < |workers| ==> workers[j] == was[j]
      {
        if workers[i].Asleep? {
          workers := workers[i := Waking(false)];
        }
        i := i + 1;
      }
      assert workers == WakeAll(was);
      Note(before, NotifyAll);
    }
  }

  lemma {:induction false} RunFacts(s: State, actions: seq<Action>)
    requires MutexInv(s) && FifoInv(s) && Staffed(s) && Runs(s, actions)
    ensures var t := After(s, actions); MutexInv(t) && FifoInv(t) && Staffed(t) && t.capacity == s.capacity
    decreases |actions|
  {
    hide MutexInv, FifoInv, Staffed;
    if actions != [] {
      StepMutex(s, actions[0]);
      StepFifo(s, actions[0]);
      StepStaffed(s, actions[0]);
      RunFacts(Apply(s, actions[0]), actions[1..]);
    }
  }

  lemma {:induction false} RunsAppend(s: State, actions: seq<Action>, a: Action)
    requires Runs(s, actions) && Enabled(After(s, actions), a)
    ensures Runs(s, actions + [a]) && After(s, actions + [a]) == Apply(After(s, actions), a)
    decreases |actions|
  {
    if actions != [] {
      assert (actions + [a])[1..] == actions[1..] + [a];
      RunsAppend(Apply(s, actions[0]), actions[1..], a);
    }
  }
}
