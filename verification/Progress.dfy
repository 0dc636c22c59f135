// Accepted submissions get their verdicts: where one stands that has none yet, and that every
// long enough continuation decides all but those whose call of judge hangs.
module Progress {
  import opened Common
  import E = Executor
  import opened Lifecycle
  import opened Guarantees

  // The verdict of a submission answered with 202 is still to come exactly while it is queued,
  // about to be marked, or inside judge: no accepted submission is ever lost on the way.
  lemma DecidedIff(c: Config, events: seq<Event>, r: nat)
    requires IsRun(c, events) && r < |End(c, events).requests| && End(c, events).requests[r].progress.Queued?
    ensures var s := End(c, events); var id := s.requests[r].progress.id;
      id < |s.log| && (s.log[id].phase.Decided? <==> !InQueue(s, id) && !AboutToBeMarked(s, id) && !InsideJudge(s, id))
  {
    EndGood(c, events);
    WhereUndecided(End(c, events), r);
  }

  lemma WhereUndecided(s: State, r: nat)
    requires Good(s) && r < |s.requests| && s.requests[r].progress.Queued?
    ensures var id := s.requests[r].progress.id;
      id < |s.log| && (s.log[id].phase.Decided? <==> !InQueue(s, id) && !AboutToBeMarked(s, id) && !InsideJudge(s, id))
  {
    QueuedRow(s, r);
    hide Good;
    var id := s.requests[r].progress.id;
    MarkedIff(s, id);
    UntouchedIff(s, id);
  }

  lemma QueuedRow(s: State, r: nat)
    requires Good(s) && r < |s.requests| && s.requests[r].progress.Queued?
    ensures var id := s.requests[r].progress.id; id < |s.rows| == |s.log| && !NotYetAccepted(s, id)
  {
    var id := s.requests[r].progress.id;
    assert IdOf(s.requests[r].progress) == Some(id);
    OnlyOrigin(s, id);
  }

  // When no work is left, every submission answered with 202 has had its one verdict decided.
  lemma AcceptedAreDecided(c: Config, events: seq<Event>, r: nat)
    requires IsRun(c, events) && r < |End(c, events).requests| && End(c, events).requests[r].progress.Queued?
    requires E.TaskWork(End(c, events).exec) == 0
    ensures var s := End(c, events); var id := s.requests[r].progress.id;
      id < |s.log| && s.log[id].phase.Decided?
  {
    EndGood(c, events);
    E.NoWorkLeftIff(End(c, events).exec);
    DecidedIff(c, events, r);
    assert End(c, events).exec.queue == [];
  }

  // No task is accepted and the service is not stopped; anything else may go on.
  ghost predicate Quiet(events: seq<Event>) {
    forall i :: 0 <= i < |events| ==> !events[i].Offer? && !events[i].Shutdown? && !events[i].Notify?
  }

  function ExecAction(e: Event): seq<E.Action> {
    match e
    case Move(w, timedOut) => [E.Work(w, timedOut)]
    case Mark(w, _) => [E.Work(w, false)]
    case Decide(w, _, _, _) => [E.Work(w, false)]
    case Hang(w) => [E.Hang(w)]
    case Deliver(w) => [E.NotifyOne(w)]
    case _ => []
  }

  // What the scheduler does in such a run.
  function ExecActions(events: seq<Event>): seq<E.Action> {
    if events == [] then [] else ExecAction(events[0]) + ExecActions(events[1..])
  }

  lemma {:induction false} ExecConcat(a: seq<Event>, b: seq<Event>)
    ensures ExecActions(a + b) == ExecActions(a) + ExecActions(b)
  {
    if a == [] {
      assert a + b == b;
    } else {
      assert (a + b)[1..] == a[1..] + b;
      ExecConcat(a[1..], b);
    }
  }

  lemma ExecStep(s: State, e: Event)
    requires Good(s) && Ready(s, e) && !e.Offer? && !e.Shutdown? && !e.Notify?
    ensures if ExecAction(e) == [] then Next(s, e).exec == s.exec
            else E.Enabled(s.exec, ExecAction(e)[0]) && Next(s, e).exec == E.Apply(s.exec, ExecAction(e)[0])
    ensures forall a :: a in ExecAction(e) ==> a.Work? || a.Hang? || a.NotifyOne?
  {
    ActionIsStep(s, e);
    hide Good, Ready, Next;
  }

  lemma {:induction false} ExecRun(s: State, events: seq<Event>)
    requires Good(s) && Possible(s, events) && Quiet(events)
    ensures E.Runs(s.exec, ExecActions(events)) && E.OnlyWorkers(ExecActions(events))
    ensures E.After(s.exec, ExecActions(events)) == Outcome(s, events).exec
    decreases |events|
  {
    hide Good, Next, Ready, E.Enabled, E.Apply, ExecAction;
    if events != [] {
      var e, rest := events[0], events[1..];
      StepGood(s, e);
      ExecStep(s, e);
      ExecRun(Next(s, e), rest);
      ShortAction(e);
      if ExecAction(e) == [] {
        assert ExecActions(events) == ExecActions(rest);
      } else {
        var a := ExecAction(e)[0];
        assert ExecActions(events) == [a] + ExecActions(rest);
        E.RunsCons(s.exec, a, ExecActions(rest));
      }
    }
  }

  lemma ShortAction(e: Event)
    ensures ExecAction(e) == [] || |ExecAction(e)| == 1
  {}

  ghost predicate HangsWith(s: State, id: nat) {
    exists w :: 0 <= w < |s.exec.workers| && s.exec.workers[w].Hanging?
      && s.exec.workers[w].task.submissionId == id
  }

  // In every continuation of a running service in which the workers take enough steps together
  // and then each gets three turns, every submission answered with 202 has its verdict decided,
  // unless its call of judge hangs.
  lemma AllDecided(s: State, first: seq<Event>, more: seq<Event>, r: nat)
    requires Good(s) && s.exec.running && Possible(s, first + more) && Quiet(first + more)
    requires E.WorkSteps(ExecActions(first)) >= E.DrainMeasure(s.exec)
    requires forall w: nat :: w < |s.exec.workers| ==>
      E.Served(Outcome(s, first + more).exec, ExecActions(more), w)
    requires var t := Outcome(s, first + more); r < |t.requests| && t.requests[r].progress.Queued?
    ensures var t := Outcome(s, first + more); var id := t.requests[r].progress.id;
      id < |t.log| && (t.log[id].phase.Decided? <==> !HangsWith(t, id))
  {
    var t := Outcome(s, first + more);
    RunGood(s, first + more);
    ExecRun(s, first + more);
    ExecConcat(first, more);
    FinishedWork(s, ExecActions(first), ExecActions(more));
    hide Good, E.Served, Possible, Quiet, ExecActions;
    OnlyHangingLeft(t, r);
  }

  lemma OnlyHangingLeft(s: State, r: nat)
    requires Good(s) && r < |s.requests| && s.requests[r].progress.Queued? && s.exec.queue == []
    requires forall w :: 0 <= w < |s.exec.workers| && E.Busy(s.exec.workers[w]) ==> s.exec.workers[w].Hanging?
    ensures var id := s.requests[r].progress.id;
      id < |s.log| && (s.log[id].phase.Decided? <==> !HangsWith(s, id))
  {
    WhereUndecided(s, r);
    hide Good;
    var id := s.requests[r].progress.id;
    assert !InQueue(s, id) && !AboutToBeMarked(s, id);
    assert InsideJudge(s, id) <==> HangsWith(s, id);
  }

  lemma FinishedWork(s: State, first: seq<E.Action>, more: seq<E.Action>)
    requires Good(s) && s.exec.running && E.Runs(s.exec, first + more) && E.OnlyWorkers(first + more)
    requires E.WorkSteps(first) >= E.DrainMeasure(s.exec)
    requires forall w: nat :: w < |s.exec.workers| ==> E.Served(E.After(s.exec, first + more), more, w)
    ensures var x := E.After(s.exec, first + more);
      x.queue == []
      && forall w :: 0 <= w < |x.workers| && E.Busy(x.workers[w]) ==> x.workers[w].Hanging?
  {
    hide RowsInv, AcceptedInv, PhaseInv, TokenInv;
    E.AllTasksFinish(s.exec, first, more);
  }
}
