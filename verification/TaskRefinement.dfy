// The body of worker_loop for one task, run on the submissions table, makes exactly the events
// of the whole-system model for it: Mark, the query of the test cases, and Decide. So what
// Judge.Worker computes is what the guarantees over all interleavings are about.
module TaskRefinement {
  import opened Common
  import opened Submissions
  import opened Judge
  import opened SandboxedJudge
  import E = Executor
  import opened Lifecycle

  ghost function RowTable(rows: seq<Row>): map<int, Row> { map id | 0 <= id < |rows| :: rows[id] }

  lemma UpdateAgrees(rows: seq<Row>, id: nat, u: Update, arrived: bool)
    ensures After(RowTable(rows), id, u, arrived) == RowTable(UpdateRow(rows, id, u, arrived))
  {}

  lemma OneEvent(s: State, e: Event)
    requires Ready(s, e)
    ensures Possible(s, [e]) && Outcome(s, [e]) == Next(s, e)
  {
    assert [e][1..] == [];
    assert Outcome(Next(s, e), []) == Next(s, e);
  }

  // The world's answers are about the task of worker w as the system stands.
  ghost predicate Fitting(s: State, w: nat, world: World)
    requires w < |s.exec.workers| && s.exec.workers[w].Marking? && world.Valid()
  {
    Concerns(world, s.exec.workers[w].task, Some(s.tests), s.pipe)
  }

  // The events of one task.
  ghost function EventsOf(w: nat, m: bool, world: World, verdict: Update, v: bool): seq<Event> {
    [Mark(w, m)] + ((if world.CasesLoaded() then [Select(w)] else []) + [Decide(w, world, verdict, v)])
  }

  // From the moment its task is taken, a worker is ready to mark it, to query the cases, and to
  // decide it with every right outcome.
  lemma MarkThenDecide(s: State, w: nat, m: bool, world: World, verdict: Update, v: bool)
    requires Good(s) && w < |s.exec.workers| && s.exec.workers[w].Marking?
    requires world.Valid() && RightOutcome(world, verdict) && Fitting(s, w, world)
    ensures var id := s.exec.workers[w].task.submissionId;
      Possible(s, EventsOf(w, m, world, verdict, v))
      && Outcome(s, EventsOf(w, m, world, verdict, v)).rows
         == UpdateRow(UpdateRow(s.rows, id, MARK_JUDGING, m), id, verdict, v)
  {
    var mark, decide := Mark(w, m), Decide(w, world, verdict, v);
    PhaseOfBusy(s, w);
    Marked(s, w, m, world);
    hide Good, RightOutcome, Concerns, Fitting, Ready, Next, TableOf;
    var t := Next(s, mark);
    if world.CasesLoaded() {
      Selected(t, w, world);
      var u := Next(t, Select(w));
      CanDecide(u, w, world, verdict, v);
      OneEvent(u, decide);
      EventsCons(t, Select(w), [decide]);
      EventsCons(s, mark, [Select(w)] + [decide]);
    } else {
      CanDecide(t, w, world, verdict, v);
      OneEvent(t, decide);
      EventsCons(s, mark, [decide]);
      assert [] + [decide] == [decide];
    }
  }

  lemma Marked(s: State, w: nat, m: bool, world: World)
    requires w < |s.exec.workers| && s.exec.workers[w].Marking? && world.Valid() && Fitting(s, w, world)
    requires s.exec.workers[w].task.submissionId < |s.log|
    ensures Ready(s, Mark(w, m))
    ensures var t := Next(s, Mark(w, m)); var task := s.exec.workers[w].task;
      && t.rows == UpdateRow(s.rows, task.submissionId, MARK_JUDGING, m) && task.submissionId < |t.log|
      && w < |t.exec.workers| && t.exec.workers[w] == E.Judging(task)
      && TableOf(t.log, task.submissionId) == TableOf(s.log, task.submissionId)
      && t.tests == s.tests && t.pipe == s.pipe && Concerns(world, task, Some(t.tests), t.pipe)
      && (!world.CasesLoaded() ==> Concerns(world, task, TableOf(t.log, task.submissionId), t.pipe))
  {
    hide Sandboxed;
  }

  lemma Selected(s: State, w: nat, world: World)
    requires w < |s.exec.workers| && s.exec.workers[w].Judging? && world.Valid()
    requires Concerns(world, s.exec.workers[w].task, Some(s.tests), s.pipe)
    requires s.exec.workers[w].task.submissionId < |s.log|
    requires TableOf(s.log, s.exec.workers[w].task.submissionId).None?
    ensures Ready(s, Select(w))
    ensures var t := Next(s, Select(w)); var task := s.exec.workers[w].task;
      t.exec == s.exec && t.pipe == s.pipe && t.rows == s.rows
      && Concerns(world, task, TableOf(t.log, task.submissionId), t.pipe)
  {
    hide Sandboxed;
  }

  lemma CanDecide(s: State, w: nat, world: World, verdict: Update, v: bool)
    requires w < |s.exec.workers| && s.exec.workers[w].Judging? && world.Valid() && RightOutcome(world, verdict)
    requires Concerns(world, s.exec.workers[w].task, TableOf(s.log, s.exec.workers[w].task.submissionId), s.pipe)
    ensures Ready(s, Decide(w, world, verdict, v))
    ensures Next(s, Decide(w, world, verdict, v)).rows
         == UpdateRow(s.rows, s.exec.workers[w].task.submissionId, verdict, v)
  {
    hide Concerns, RightOutcome;
  }

  method ProcessTask(worker: Worker, ghost s: State, ghost w: nat, id: nat, world: World,
                     markHow: Delivery, how: Delivery, disk: Disk)
    returns (finished: bool, ghost verdict: Option<Update>, ghost events: seq<Event>)
    requires Good(s) && w < |s.exec.workers| && s.exec.workers[w].Marking?
    requires id == s.exec.workers[w].task.submissionId && worker.rows == RowTable(s.rows)
    requires world.Valid() && Fitting(s, w, world)
    requires worker.held == 0 && worker.peak <= 1
    modifies worker
    ensures finished <==> disk.created && disk.removed
    ensures Possible(s, events) && worker.rows == RowTable(Outcome(s, events).rows)
    ensures Good(Outcome(s, events))
    ensures verdict.Some? <==> disk.created
    ensures var m := Arrives(MARK_JUDGING, markHow); verdict.Some? ==>
      var v := Arrives(verdict.value, how);
      && RightOutcome(world, verdict.value) && events == EventsOf(w, m, world, verdict.value, v)
      && worker.attempts == old(worker.attempts) + [Attempt(id, MARK_JUDGING, m), Attempt(id, verdict.value, v)]
    ensures var m := Arrives(MARK_JUDGING, markHow); verdict.None? ==>
      events == [Mark(w, m)] && worker.attempts == old(worker.attempts) + [Attempt(id, MARK_JUDGING, m)]
  {
    hide Good, RightOutcome, Fitting;
    finished, verdict := worker.Process(id, world, markHow, how, disk);
    ghost var m := Arrives(MARK_JUDGING, markHow);
    UpdateAgrees(s.rows, id, MARK_JUDGING, m);
    if verdict.Some? {
      ghost var v := Arrives(verdict.value, how);
      events := EventsOf(w, m, world, verdict.value, v);
      MarkThenDecide(s, w, m, world, verdict.value, v);
      UpdateAgrees(UpdateRow(s.rows, id, MARK_JUDGING, m), id, verdict.value, v);
    } else {
      events := [Mark(w, m)];
      OneEvent(s, Mark(w, m));
    }
    RunGood(s, events);
  }
}
