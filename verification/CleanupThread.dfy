// The cleanup thread of AuthService and its shutdown. Unlike the judge's, this stop flag is
// set under the mutex of the condition variable, so the notify cannot be missed.
module CleanupThread {
  import opened Common

  // Where cleanup_loop stands.
  datatype Stage =
    | AboutToPass     // about to call cleanup_expired, mutex not held
    | InPass
    | Relocking       // about to take cleanup_mutex_
    | AtTop           // holds it, about to test while (!stop_cleanup_)
    | EnteringWait    // holds it, flag was false, about to wait
    | Waiting         // in wait_for
    | Waking          // notified, timed out or woken spuriously; needs the mutex again
    | AfterWait       // holds it, about to test the flag once more
    | Done

  // Where shutdown stands.
  datatype Closer = Away | Holding | Stored | Notified | Joined

  datatype Owner = Nobody | Cleaner | Stopper

  // begunAfterStop is history: cleanup passes begun since the flag was set.
  datatype State = State(stop: bool, owner: Owner, stage: Stage, closer: Closer, begunAfterStop: nat)

  datatype Action = Clean | Stop   // the next step of the cleanup thread, or of shutdown

  const START := State(false, Nobody, AboutToPass, Away, 0)

  predicate Enabled(s: State, a: Action) {
    match a
    case Clean => s.stage != Done && ((s.stage == Relocking || s.stage == Waking) ==> s.owner == Nobody)
    case Stop =>
      s.closer != Joined && (s.closer == Away ==> s.owner == Nobody) && (s.closer == Notified ==> s.stage == Done)
  }

  function CleanStep(s: State): State {
    match s.stage
    case AboutToPass => s.(stage := InPass, begunAfterStop := s.begunAfterStop + (if s.stop then 1 else 0))
    case InPass => s.(stage := Relocking)
    case Relocking => s.(stage := AtTop, owner := Cleaner)
    case AtTop => if s.stop then s.(stage := Done, owner := Nobody) else s.(stage := EnteringWait)
    case EnteringWait => s.(stage := Waiting, owner := Nobody)
    case Waiting => s.(stage := Waking)
    case Waking => s.(stage := AfterWait, owner := Cleaner)
    case AfterWait => if s.stop then s.(stage := Done, owner := Nobody) else s.(stage := AboutToPass, owner := Nobody)
    case Done => s
  }

  function StopStep(s: State): State {
    match s.closer
    case Away => s.(closer := Holding, owner := Stopper)
    case Holding => s.(closer := Stored, stop := true, owner := Nobody)
    case Stored => s.(closer := Notified, stage := if s.stage == Waiting then Waking else s.stage)
    case Notified => s.(closer := Joined)
    case Joined => s
  }

  function Apply(s: State, a: Action): State {
    if a == Clean then CleanStep(s) else StopStep(s)
  }

  ghost predicate Runs(s: State, actions: seq<Action>)
    decreases |actions|
  {
    actions == [] || (Enabled(s, actions[0]) && Runs(Apply(s, actions[0]), actions[1..]))
  }

  ghost function After(s: State, actions: seq<Action>): State
    requires Runs(s, actions)
    decreases |actions|
  {
    if actions == [] then s else After(Apply(s, actions[0]), actions[1..])
  }

  // Once the flag is set the thread cannot be about to wait, and once notified it is not
  // waiting; at most one pass begins after the flag.
  ghost predicate Inv(s: State) {
    && (s.owner == Cleaner <==> s.stage == AtTop || s.stage == EnteringWait || s.stage == AfterWait)
    && (s.owner == Stopper <==> s.closer == Holding)
    && (s.stop <==> s.closer == Stored || s.closer == Notified || s.closer == Joined)
    && (s.stop ==> s.stage != EnteringWait)
    && (s.closer == Notified || s.closer == Joined ==> s.stage != Waiting)
    && (s.closer == Joined ==> s.stage == Done)
    && s.begunAfterStop + (if s.stage == AboutToPass then 1 else 0) <= 1
    && (!s.stop ==> s.begunAfterStop == 0)
  }

  lemma StepInv(s: State, a: Action)
    requires Inv(s) && Enabled(s, a)
    ensures Inv(Apply(s, a))
    ensures s.stop ==> Apply(s, a).stop && Apply(s, a).stage != EnteringWait
    ensures s.stop && s.stage != Waiting ==> Apply(s, a).stage != Waiting
  {}

  lemma {:induction false} RunsInv(s: State, actions: seq<Action>)
    requires Inv(s) && Runs(s, actions)
    ensures Inv(After(s, actions))
    ensures s.stop ==> After(s, actions).stop
    ensures s.stop && s.stage != Waiting ==> After(s, actions).stage != Waiting
    decreases |actions|
  {
    hide Inv;
    if actions != [] {
      StepInv(s, actions[0]);
      RunsInv(Apply(s, actions[0]), actions[1..]);
    }
  }

  // In every interleaving: after the flag is set no wait begins, after the notify nobody
  // waits, and at most one more cleanup pass is begun before the thread ends.
  lemma StopIsPrompt(before: seq<Action>, after: seq<Action>)
    requires Runs(START, before) && Runs(After(START, before), after)
    ensures var s, t := After(START, before), After(After(START, before), after);
      s.stop ==>
        && t.stop && t.stage != EnteringWait && t.begunAfterStop <= 1
        && (s.stage != Waiting ==> t.stage != Waiting)
        && (t.closer == Notified || t.closer == Joined ==> t.stage != Waiting)
  {
    RunsInv(START, before);
    RunsInv(After(START, before), after);
  }

  // Thread steps left once the flag is set.
  function StepsLeft(stage: Stage): nat {
    match stage
    case Done => 0
    case AtTop => 1
    case AfterWait => 1
    case Relocking => 2
    case Waking => 2
    case InPass => 3
    case Waiting => 3
    case AboutToPass => 4
    case EnteringWait => 4
  }

  function CleanWeight(a: Action): nat { if a == Clean then 1 else 0 }

  // join returns: after the flag the thread takes at most four more steps, and after the
  // notify it is never kept from taking the next one.
  lemma {:induction false} JoinReturns(s: State, actions: seq<Action>)
    requires Inv(s) && s.stop && Runs(s, actions)
    ensures Sum(actions, CleanWeight) + StepsLeft(After(s, actions).stage) <= StepsLeft(s.stage) <= 4
    ensures After(s, actions).stage != Done ==> Enabled(After(s, actions), Clean)
    decreases |actions|
  {
    if actions != [] {
      StepInv(s, actions[0]);
      JoinReturns(Apply(s, actions[0]), actions[1..]);
    }
  }

  // The thread and its flag as an object: every state of it is one the steps reach from the start.
  class Cleanup {
    var stop: bool            // stop_cleanup_
    var owner: Owner          // cleanup_mutex_
    var stage: Stage
    var closer: Closer
    ghost var begunAfterStop: nat
    ghost var history: seq<Action>

    ghost function View(): State
      reads this
    {
      State(stop, owner, stage, closer, begunAfterStop)
    }

    ghost predicate Valid()
      reads this
    {
      Runs(START, history) && View() == After(START, history)
    }

    // init starts the thread.
    constructor()
      ensures Valid() && View() == START && history == []
    {
      stop, owner, stage, closer, begunAfterStop, history := false, Nobody, AboutToPass, Away, 0, [];
    }

    // Records a step that has just been made from the state before.
    ghost method Note(before: State, a: Action)
      requires Runs(START, history) && before == After(START, history)
      requires Enabled(before, a) && View() == Apply(before, a)
      modifies this`history
      ensures Valid() && history == old(history) + [a]
    {
      RunsAppend(START, history, a);
      history := history + [a];
    }

    // cleanup_expired without the mutex, which is then taken again.
    method Pass()
      requires Valid() && stage == AboutToPass && owner == Nobody
      modifies this`stage, this`owner, this`begunAfterStop, this`history
      ensures Valid() && stage == AtTop && owner == Cleaner
      ensures begunAfterStop == old(begunAfterStop) + (if stop then 1 else 0)
    {
      ghost var s0 := View();
      begunAfterStop := begunAfterStop + (if stop then 1 else 0);
      stage := InPass;
      Note(s0, Clean);
      ghost var s1 := View();
      stage := Relocking;
      Note(s1, Clean);
      ghost var s2 := View();
      stage, owner := AtTop, Cleaner;
      Note(s2, Clean);
    }

    // The sleep, during which shutdown may come; the thread wakes with the mutex.
    method Sleep(closing: bool)
      requires Valid() && stage == EnteringWait && owner == Cleaner && (closing ==> closer == Away)
      modifies this
      ensures Valid() && stage == AfterWait && owner == Cleaner && begunAfterStop == old(begunAfterStop)
      ensures stop == (closing || old(stop)) && closer == if closing then Notified else old(closer)
    {
      ghost var s0 := View();
      stage, owner := Waiting, Nobody;
      Note(s0, Clean);
      if closing {
        Shutdown();
      } else {
        ghost var s1 := View();
        stage := Waking;
        Note(s1, Clean);
      }
      ghost var s2 := View();
      stage, owner := AfterWait, Cleaner;
      Note(s2, Clean);
    }

    // One iteration of cleanup_loop. It ends the thread exactly when the flag is set at its top
    // or during its wait, without another pass; else it passes once and comes back to its top.
    method Iterate(closing: bool) returns (again: bool)
      requires Valid() && stage == AtTop && owner == Cleaner && (closing ==> closer == Away)
      modifies this
      ensures Valid() && (again <==> !stop) && (again <==> !old(stop) && !closing)
      ensures if again then stage == AtTop && owner == Cleaner else stage == Done && owner == Nobody
      ensures begunAfterStop == old(begunAfterStop)
    {
      ghost var s0 := View();
      if stop {
        stage, owner := Done, Nobody;
        Note(s0, Clean);
        return false;
      }
      stage := EnteringWait;
      Note(s0, Clean);
      Sleep(closing);
      ghost var s1 := View();
      owner := Nobody;
      if stop {
        stage := Done;
        Note(s1, Clean);
        return false;
      }
      stage := AboutToPass;
      Note(s1, Clean);
      Pass();
      return true;
    }

    // shutdown up to its join: set the flag under the mutex, then notify.
    method Shutdown()
      requires Valid() && closer == Away && owner == Nobody
      modifies this
      ensures Valid() && stop && closer == Notified && owner == Nobody && begunAfterStop == old(begunAfterStop)
      ensures stage == if old(stage) == Waiting then Waking else old(stage)
    {
      ghost var s0 := View();
      closer, owner := Holding, Stopper;
      Note(s0, Stop);
      ghost var s1 := View();
      stop := true;
      closer, owner := Stored, Nobody;
      Note(s1, Stop);
      ghost var s2 := View();
      if stage == Waiting { stage := Waking; }
      closer := Notified;
      Note(s2, Stop);
    }
  }

  lemma {:induction false} RunsAppend(s: State, actions: seq<Action>, a: Action)
    requires Runs(s, actions) && Enabled(After(s, actions), a)
    ensures Runs(s, actions + [a]) && After(s, actions + [a]) == Apply(After(s, actions), a)
    decreases |actions|
  {
    if actions != [] {
      assert (actions + [a])[1..] == actions[1..] + [a];
      RunsAppend(Apply(s, actions[0]), actions[1..], a);
    }
  }
}
