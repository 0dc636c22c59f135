// The state of the submission system as its events tell it: for every run from start-up, what the
// requests, rows, tasks, test cases and verdicts are, in terms of the list of events alone.
module History {
  import opened Common
  import opened Submissions
  import opened RateLimiter
  import opened TestCases
  import opened Judge
  import opened SandboxedJudge
  import E = Executor
  import opened Lifecycle
  import opened Guarantees

  // ---- Submissions ----

  // The calls of the rate limiter, in order.
  ghost function CallsOf(events: seq<Event>): seq<Call> {
    if events == [] then [] else
      var init, e := events[..|events| - 1], events[|events| - 1];
      CallsOf(init) + (if e.Submit? then [Call(e.userId, e.now)] else [])
  }

  // The submissions that the limiter granted, in order.
  ghost function GrantedSubmits(events: seq<Event>, window: int): seq<Event> {
    if events == [] then [] else
      var init, e := events[..|events| - 1], events[|events| - 1];
      GrantedSubmits(init, window)
      + (if e.Submit? && Allowed(LastAfter(CallsOf(init), window), Call(e.userId, e.now), window) then [e] else [])
  }

  // The k-th request has what the k-th granted submission submitted.
  ghost predicate SameSubmission(q: Request, e: Event) {
    e.Submit? && q.userId == e.userId && q.problemId == e.problemId && q.code == e.code
  }

  ghost predicate RequestsAre(requests: seq<Request>, submits: seq<Event>) {
    |requests| == |submits| && forall k :: 0 <= k < |requests| ==> SameSubmission(requests[k], submits[k])
  }

  lemma StepRequests(s: State, e: Event)
    requires Ready(s, e)
    ensures Next(s, e).window == s.window
    ensures Next(s, e).calls == s.calls + (if e.Submit? then [Call(e.userId, e.now)] else [])
    ensures var granted := e.Submit? && Allowed(LastAfter(s.calls, s.window), Call(e.userId, e.now), s.window);
      var t := Next(s, e);
      && |t.requests| == |s.requests| + (if granted then 1 else 0)
      && (granted ==> SameSubmission(t.requests[|s.requests|], e))
      && forall k :: 0 <= k < |s.requests| ==> SameOwner(s.requests[k], t.requests[k])
  {
    hide LastAfter, Allowed;
  }

  ghost predicate SameOwner(q: Request, p: Request) {
    q.userId == p.userId && q.problemId == p.problemId && q.code == p.code
  }

  lemma {:induction false} RequestsAreSubmits(c: Config, events: seq<Event>)
    requires IsRun(c, events)
    ensures End(c, events).window == c.window && End(c, events).calls == CallsOf(events)
    ensures RequestsAre(End(c, events).requests, GrantedSubmits(events, c.window))
    decreases |events|
  {
    if events != [] {
      var n := |events| - 1;
      OutcomeLast(Initial(c), events);
      RequestsAreSubmits(c, events[..n]);
      StepRequests(End(c, events[..n]), events[n]);
      hide Allowed, LastAfter, Next, Ready;
    }
  }

  // Every row has the user, the problem and the program of a granted submission, each of a
  // different one.
  lemma RowIsSubmitted(c: Config, events: seq<Event>, id: nat)
    requires IsRun(c, events) && id < |End(c, events).rows|
    ensures var s, submits := End(c, events), GrantedSubmits(events, c.window);
      && id < |s.log| && s.log[id].origin < |submits| == |s.requests|
      && var e := submits[s.log[id].origin];
         e.Submit? && s.rows[id].userId == e.userId
         && s.rows[id].problemId == e.problemId && s.rows[id].code == e.code
    ensures forall other :: 0 <= other < |End(c, events).log| && other != id ==>
      End(c, events).log[other].origin != End(c, events).log[id].origin
  {
    EndGood(c, events);
    RequestsAreSubmits(c, events);
    RowOfOrigin(End(c, events), id);
    hide Good, End, IsRun;
    assert SameSubmission(End(c, events).requests[End(c, events).log[id].origin],
                          GrantedSubmits(events, c.window)[End(c, events).log[id].origin]);
  }

  lemma RowOfOrigin(s: State, id: nat)
    requires Good(s) && id < |s.rows|
    ensures id < |s.log| == |s.rows| && s.log[id].origin < |s.requests|
    ensures var q := s.requests[s.log[id].origin];
      s.rows[id].userId == q.userId && s.rows[id].problemId == q.problemId && s.rows[id].code == q.code
    ensures forall other :: 0 <= other < |s.log| && other != id ==> s.log[other].origin != s.log[id].origin
  {
    ExpectedKeeps(s.requests[s.log[id].origin], s.log[id].phase);
  }

  // A request that was given up never has a row.
  lemma {:induction false} GaveUpStays(s: State, events: seq<Event>, r: nat)
    requires Good(s) && Possible(s, events) && r < |s.requests| && s.requests[r].progress.GaveUp?
    ensures var t := Outcome(s, events); Good(t) && forall id :: 0 <= id < |t.log| ==> t.log[id].origin != r
    decreases |events|
  {
    if events == [] {
      forall id | 0 <= id < |s.log| ensures s.log[id].origin != r {
        RowOfOrigin(s, id);
        OriginHasRow(s, id);
      }
    } else {
      StepGood(s, events[0]);
      GivenUpKept(s, events[0], r);
      hide Good;
      GaveUpStays(Next(s, events[0]), events[1..], r);
    }
  }

  lemma OriginHasRow(s: State, id: nat)
    requires Good(s) && id < |s.log|
    ensures s.log[id].origin < |s.requests| && !s.requests[s.log[id].origin].progress.GaveUp?
  {}

  lemma GivenUpKept(s: State, e: Event, r: nat)
    requires Ready(s, e) && r < |s.requests| && s.requests[r].progress.GaveUp?
    ensures r < |Next(s, e).requests| && Next(s, e).requests[r].progress.GaveUp?
  {
    hide E.WorkStep, E.Apply, LastAfter, Allowed;
  }

  lemma AbortedHasNoRow(c: Config, events: seq<Event>, n: nat, r: nat)
    requires IsRun(c, events) && n < |events| && events[n] == Abort(r)
    ensures var s := End(c, events); forall id :: 0 <= id < |s.log| ==> s.log[id].origin != r
  {
    OutcomeSplit(Initial(c), events, n);
    EndGood(c, events[..n]);
    var s := End(c, events[..n]);
    assert events[n..][0] == events[n];
    StepGood(s, events[n]);
    GaveUpStays(Next(s, events[n]), events[n..][1..], r);
  }

  // ---- Tasks ----

  // The enqueue that accepted a task, with the limits it was given.
  ghost predicate OfferedAt(events: seq<Event>, n: nat, r: nat, task: E.SubmitTask) {
    n < |events| && events[n] == Offer(r, task.timeLimit, task.memoryLimit)
  }

  ghost predicate TasksOffered(s: State, events: seq<Event>) {
    forall k :: 0 <= k < |s.exec.accepted| ==>
      && s.exec.accepted[k].submissionId < |s.log|
      && exists n: nat :: OfferedAt(events, n, s.log[s.exec.accepted[k].submissionId].origin, s.exec.accepted[k])
  }

  lemma StepTasks(s: State, e: Event)
    requires Good(s) && Ready(s, e)
    ensures var t := Next(s, e);
      && |s.log| <= |t.log| && (forall id :: 0 <= id < |s.log| ==> t.log[id].origin == s.log[id].origin)
      && (t.exec.accepted == s.exec.accepted || (e.Offer? && e.r < |s.requests|
            && t.exec.accepted == s.exec.accepted + [t.exec.accepted[|s.exec.accepted|]]
            && var task := t.exec.accepted[|s.exec.accepted|];
               task.timeLimit == e.timeLimit && task.memoryLimit == e.memoryLimit
               && task.submissionId < |s.log| && s.log[task.submissionId].origin == e.r))
  {
    OriginsKept(s, e);
    if e.Offer? {
      OfferedRow(s, e.r);
      hide Good;
      OfferTakes(s, e);
    } else {
      hide Good;
      OthersTakeNothing(s, e);
    }
  }

  lemma OriginsKept(s: State, e: Event)
    requires Ready(s, e)
    ensures |s.log| <= |Next(s, e).log|
    ensures forall id :: 0 <= id < |s.log| ==> Next(s, e).log[id].origin == s.log[id].origin
  {
    hide E.WorkStep, E.Apply, E.TryEnqueue, LastAfter, Allowed;
  }

  lemma OfferTakes(s: State, e: Event)
    requires e.Offer? && Ready(s, e)
    ensures var task := TaskOf(s.requests[e.r], e.timeLimit, e.memoryLimit);
      Next(s, e).exec.accepted == s.exec.accepted || Next(s, e).exec.accepted == s.exec.accepted + [task]
  {}

  lemma OthersTakeNothing(s: State, e: Event)
    requires Ready(s, e) && !e.Offer?
    ensures Next(s, e).exec.accepted == s.exec.accepted
  {
    if e.Move? { WorkAccepts(s.exec, e.w, e.timedOut); }
    if e.Mark? || e.Decide? { WorkAccepts(s.exec, e.w, false); }
    hide E.WorkStep, LastAfter, Allowed;
  }

  lemma OfferedRow(s: State, r: nat)
    requires Good(s) && r < |s.requests| && s.requests[r].progress.HasRow?
    ensures s.requests[r].progress.id < |s.log| && s.log[s.requests[r].progress.id].origin == r
  {
    assert IdOf(s.requests[r].progress).Some?;
  }

  lemma {:induction false} TasksAreOffered(c: Config, events: seq<Event>)
    requires IsRun(c, events)
    ensures TasksOffered(End(c, events), events)
    decreases |events|
  {
    if events != [] {
      var n := |events| - 1;
      OutcomeLast(Initial(c), events);
      TasksAreOffered(c, events[..n]);
      EndGood(c, events[..n]);
      StepTasks(End(c, events[..n]), events[n]);
      hide Good, Next, Ready, TasksOffered;
      LongerOffers(End(c, events[..n]), End(c, events), events);
    }
  }

  lemma LongerOffers(s: State, t: State, events: seq<Event>)
    requires events != [] && TasksOffered(s, events[..|events| - 1])
    requires var e := events[|events| - 1];
      && |s.log| <= |t.log| && (forall id :: 0 <= id < |s.log| ==> t.log[id].origin == s.log[id].origin)
      && (t.exec.accepted == s.exec.accepted || (e.Offer? && e.r < |s.requests|
            && |t.exec.accepted| == |s.exec.accepted| + 1 && t.exec.accepted[..|s.exec.accepted|] == s.exec.accepted
            && var task := t.exec.accepted[|s.exec.accepted|];
               task.timeLimit == e.timeLimit && task.memoryLimit == e.memoryLimit
               && task.submissionId < |s.log| && s.log[task.submissionId].origin == e.r))
    ensures TasksOffered(t, events)
  {
    var last := |events| - 1;
    forall k | 0 <= k < |t.exec.accepted|
      ensures t.exec.accepted[k].submissionId < |t.log|
      ensures exists n: nat :: OfferedAt(events, n, t.log[t.exec.accepted[k].submissionId].origin, t.exec.accepted[k])
    {
      if k < |s.exec.accepted| {
        assert t.exec.accepted[k] == s.exec.accepted[k];
        var n: nat :| OfferedAt(events[..last], n, s.log[s.exec.accepted[k].submissionId].origin, s.exec.accepted[k]);
        assert OfferedAt(events, n, t.log[t.exec.accepted[k].submissionId].origin, t.exec.accepted[k]);
      } else {
        assert OfferedAt(events, last, t.log[t.exec.accepted[k].submissionId].origin, t.exec.accepted[k]);
      }
    }
  }

  // A worker judges the program that was submitted, for the problem it was submitted for, under
  // the limits that the request gave to enqueue.
  lemma TaskIsSubmitted(c: Config, events: seq<Event>, w: nat)
    requires IsRun(c, events) && w < |End(c, events).exec.workers| && E.Busy(End(c, events).exec.workers[w])
    ensures var s, submits := End(c, events), GrantedSubmits(events, c.window);
      var task := s.exec.workers[w].task;
      && task.submissionId < |s.log| && s.log[task.submissionId].origin < |submits|
      && (exists n: nat :: OfferedAt(events, n, s.log[task.submissionId].origin, task))
      && var e := submits[s.log[task.submissionId].origin];
         e.Submit? && task.userId == e.userId && task.problemId == e.problemId && task.code == e.code
  {
    EndGood(c, events);
    RequestsAreSubmits(c, events);
    TasksAreOffered(c, events);
    var s := End(c, events);
    BusyTask(s, w);
    AcceptedTask(s, w);
    hide Good, End, IsRun;
    var task := s.exec.workers[w].task;
    assert SameSubmission(s.requests[s.log[task.submissionId].origin],
                          GrantedSubmits(events, c.window)[s.log[task.submissionId].origin]);
  }

  lemma AcceptedTask(s: State, w: nat)
    requires Good(s) && w < |s.exec.workers| && E.Busy(s.exec.workers[w])
    ensures s.exec.workers[w].task in s.exec.accepted
  {
    BusyTask(s, w);
  }

  // A verdict is decided on answers about the submitted program, under the time limit that its
  // request gave to enqueue.
  lemma JudgedAsSubmitted(c: Config, events: seq<Event>, n: nat)
    requires IsRun(c, events) && n < |events| && events[n].Decide?
    requires IsRun(c, events[..n])
    ensures var s := End(c, events[..n]);
      events[n].w < |s.exec.workers| && E.Busy(s.exec.workers[events[n].w])
      && s.exec.workers[events[n].w].task.submissionId < |s.log|
    ensures var s, submits := End(c, events[..n]), GrantedSubmits(events[..n], c.window);
      var r := s.log[s.exec.workers[events[n].w].task.submissionId].origin;
      && r < |submits| && submits[r].Submit? && events[n].world.program == submits[r].code
      && exists i: nat, memoryLimit :: i < n && events[i] == Offer(r, events[n].world.timeLimit, memoryLimit)
  {
    OutcomeSplit(Initial(c), events, n);
    assert events[n..][0] == events[n];
    var s := End(c, events[..n]);
    var task := s.exec.workers[events[n].w].task;
    TaskIsSubmitted(c, events[..n], events[n].w);
    hide GrantedSubmits, Possible, Outcome, RightOutcome, Sandboxed;
    var r := s.log[task.submissionId].origin;
    var i: nat :| OfferedAt(events[..n], i, r, task);
    assert events[i] == Offer(r, events[n].world.timeLimit, task.memoryLimit);
  }

  // ---- The test cases and the flag ----

  // The last event about c adds it.
  ghost predicate Present(events: seq<Event>, c: TestCase) {
    exists i :: 0 <= i < |events| && events[i] == AddCase(c) && NeverDeleted(events, i + 1, c)
  }

  ghost predicate NeverDeleted(events: seq<Event>, from: nat, c: TestCase) {
    forall j :: from <= j < |events| ==> events[j] != DeleteCase(c)
  }

  lemma {:induction false} TestsAreHistory(c: Config, events: seq<Event>, t: TestCase)
    requires IsRun(c, events)
    ensures t in End(c, events).tests <==> Present(events, t)
    decreases |events|
  {
    if events != [] {
      var n := |events| - 1;
      OutcomeLast(Initial(c), events);
      TestsAreHistory(c, events[..n], t);
      PresentStep(events, t);
      StepTests(End(c, events[..n]), events[n]);
    }
  }

  lemma StepTests(s: State, e: Event)
    requires Ready(s, e)
    ensures Next(s, e).tests == match e
      case AddCase(c) => s.tests + {c}
      case DeleteCase(c) => s.tests - {c}
      case _ => s.tests
    ensures Next(s, e).exec.running <==> s.exec.running && !e.Shutdown?
  {
    if e.Move? { E.WorkKeepsFlag(s.exec, e.w, e.timedOut); }
    if e.Mark? || e.Decide? { E.WorkKeepsFlag(s.exec, e.w, false); }
    hide E.WorkStep;
  }

  lemma PresentStep(events: seq<Event>, c: TestCase)
    requires events != []
    ensures var n := |events| - 1;
      Present(events, c) <==> events[n] == AddCase(c) || (events[n] != DeleteCase(c) && Present(events[..n], c))
  {
    var n := |events| - 1;
    if events[n] == AddCase(c) {
      assert NeverDeleted(events, n + 1, c);
    }
    if Present(events, c) {
      var i :| 0 <= i < |events| && events[i] == AddCase(c) && NeverDeleted(events, i + 1, c);
      if i < n {
        assert events[..n][i] == AddCase(c) && NeverDeleted(events[..n], i + 1, c);
      }
    }
    if events[n] != DeleteCase(c) && Present(events[..n], c) {
      var i :| 0 <= i < n && events[..n][i] == AddCase(c) && NeverDeleted(events[..n], i + 1, c);
      forall j | i + 1 <= j < |events| ensures events[j] != DeleteCase(c) {
        assert j < n ==> events[..n][j] == events[j];
      }
      assert events[i] == AddCase(c) && NeverDeleted(events, i + 1, c);
    }
  }

  // The service runs as long as it has not been shut down.
  lemma {:induction false} RunningIsHistory(c: Config, events: seq<Event>)
    requires IsRun(c, events)
    ensures End(c, events).exec.running <==> forall i :: 0 <= i < |events| ==> !events[i].Shutdown?
    decreases |events|
  {
    if events != [] {
      var n := |events| - 1;
      OutcomeLast(Initial(c), events);
      RunningIsHistory(c, events[..n]);
      StepTests(End(c, events[..n]), events[n]);
      assert forall i :: 0 <= i < n ==> events[..n][i] == events[i];
    }
  }

  // ---- Statuses ----

  // Event n is an update of row id: by the worker that has this submission at that moment.
  ghost predicate UpdatesAt(s: State, events: seq<Event>, n: nat, id: nat) {
    && n < |events| && (events[n].Mark? || events[n].Decide?) && Possible(s, events[..n])
    && var t := Outcome(s, events[..n]);
       events[n].w < |t.exec.workers| && E.Busy(t.exec.workers[events[n].w])
       && t.exec.workers[events[n].w].task.submissionId == id
  }

  // The JUDGING update of the row arrived.
  ghost predicate MarkedBy(s: State, events: seq<Event>, id: nat) {
    exists n: nat :: UpdatesAt(s, events, n, id) && events[n].Mark? && events[n].arrived
  }

  // A verdict was sent for the row, and this one.
  ghost predicate DecidedBy(s: State, events: seq<Event>, id: nat, verdict: Update, arrived: bool) {
    exists n: nat :: UpdatesAt(s, events, n, id) && events[n].Decide?
      && events[n].verdict == verdict && events[n].arrived == arrived
  }

  // What the row's history records is what the events say.
  ghost predicate Recorded(s: State, events: seq<Event>, t: State, id: nat) {
    && (MarkArrived(t.log, id) <==> MarkedBy(s, events, id))
    && (forall verdict, arrived :: DecidedBy(s, events, id, verdict, arrived) <==>
          id < |t.log| && t.log[id].phase.Decided?
          && t.log[id].phase.verdict == verdict && t.log[id].phase.verdictArrived == arrived)
  }

  lemma {:induction false} RecordIsHistory(c: Config, events: seq<Event>, id: nat)
    requires IsRun(c, events)
    ensures Recorded(Initial(c), events, End(c, events), id)
    decreases |events|
  {
    if events == [] {
      assert !MarkArrived(End(c, events).log, id);
    } else {
      var n := |events| - 1;
      OutcomeLast(Initial(c), events);
      EndGood(c, events[..n]);
      RecordIsHistory(c, events[..n], id);
      var s := End(c, events[..n]);
      UpdatesLast(Initial(c), events, id);
      StepRecord(s, events[n], id);
      ExtendRecord(Initial(c), events, s, id);
    }
  }

  // Whether event e, in state s, updates the row.
  ghost predicate UpdatesNow(s: State, e: Event, id: nat) {
    (e.Mark? || e.Decide?) && e.w < |s.exec.workers| && E.Busy(s.exec.workers[e.w])
    && s.exec.workers[e.w].task.submissionId == id
  }

  lemma StepRecord(s: State, e: Event, id: nat)
    requires Good(s) && Ready(s, e)
    ensures var t := Next(s, e);
      && (MarkArrived(t.log, id) <==> MarkArrived(s.log, id) || (UpdatesNow(s, e, id) && e.Mark? && e.arrived))
      && (UpdatesNow(s, e, id) && e.Decide? ==>
            id < |t.log| && t.log[id].phase.Decided? && id < |s.log| && !s.log[id].phase.Decided?
            && t.log[id].phase.verdict == e.verdict && t.log[id].phase.verdictArrived == e.arrived)
      && (!(UpdatesNow(s, e, id) && e.Decide?) ==>
            (id < |t.log| && t.log[id].phase.Decided? <==> id < |s.log| && s.log[id].phase.Decided?)
            && (id < |s.log| && s.log[id].phase.Decided? ==> id < |t.log| && t.log[id].phase == s.log[id].phase))
  {
    if UpdatesNow(s, e, id) {
      PhaseOfBusy(s, e.w);
      hide Good;
      UpdatePhase(s, e);
    } else {
      hide Good;
      OtherPhase(s, e, id);
    }
  }

  lemma UpdatePhase(s: State, e: Event)
    requires (e.Mark? || e.Decide?) && Ready(s, e) && s.exec.workers[e.w].task.submissionId < |s.log|
    ensures var t, id := Next(s, e), s.exec.workers[e.w].task.submissionId;
      id < |t.log| && t.log[id].phase == if e.Mark? then Marked(e.arrived)
                                         else Decided(MarkArrived(s.log, id), e.world, e.verdict, e.arrived)
  {
    hide E.WorkStep, RightOutcome, Concerns;
  }

  lemma OtherPhase(s: State, e: Event, id: nat)
    requires Ready(s, e) && !UpdatesNow(s, e, id)
    ensures id < |s.log| ==> id < |Next(s, e).log| && Next(s, e).log[id].phase == s.log[id].phase
    ensures |s.log| <= id < |Next(s, e).log| ==> Next(s, e).log[id].phase.Untouched?
  {
    hide E.WorkStep, E.Apply, E.TryEnqueue, RightOutcome, Concerns, LastAfter, Allowed;
  }

  lemma UpdatesLast(s: State, events: seq<Event>, id: nat)
    requires Possible(s, events) && events != []
    ensures var n := |events| - 1;
      Possible(s, events[..n]) && (UpdatesAt(s, events, n, id) <==> UpdatesNow(Outcome(s, events[..n]), events[n], id))
    ensures forall i: nat :: i < |events| - 1 ==>
      (UpdatesAt(s, events, i, id) <==> UpdatesAt(s, events[..|events| - 1], i, id))
  {
    OutcomeLast(s, events);
    var n := |events| - 1;
    forall i: nat | i < n ensures UpdatesAt(s, events, i, id) <==> UpdatesAt(s, events[..n], i, id) {
      assert events[..n][..i] == events[..i];
    }
  }

  lemma ExtendRecord(s0: State, events: seq<Event>, s: State, id: nat)
    requires Possible(s0, events) && events != []
    requires var n := |events| - 1;
      && Possible(s0, events[..n]) && s == Outcome(s0, events[..n]) && Ready(s, events[n])
      && Outcome(s0, events) == Next(s, events[n]) && Recorded(s0, events[..n], s, id) && Good(s)
    ensures Recorded(s0, events, Outcome(s0, events), id)
  {
    var n := |events| - 1;
    var e, t := events[n], Outcome(s0, events);
    UpdatesLast(s0, events, id);
    StepRecord(s, e, id);
    hide Good, Next, Ready, Possible, Outcome, UpdatesNow, MarkArrived;
    assert MarkedBy(s0, events, id) <==>
      MarkedBy(s0, events[..n], id) || (UpdatesAt(s0, events, n, id) && e.Mark? && e.arrived) by {
      MarkedLast(s0, events, id);
    }
    forall verdict, arrived
      ensures DecidedBy(s0, events, id, verdict, arrived) <==>
        id < |t.log| && t.log[id].phase.Decided?
        && t.log[id].phase.verdict == verdict && t.log[id].phase.verdictArrived == arrived
    {
      DecidedLast(s0, events, id, verdict, arrived);
    }
  }

  lemma MarkedLast(s: State, events: seq<Event>, id: nat)
    requires events != []
    requires forall i: nat :: i < |events| - 1 ==>
      (UpdatesAt(s, events, i, id) <==> UpdatesAt(s, events[..|events| - 1], i, id))
    ensures var n := |events| - 1;
      MarkedBy(s, events, id) <==>
        MarkedBy(s, events[..n], id) || (UpdatesAt(s, events, n, id) && events[n].Mark? && events[n].arrived)
  {
    hide Possible, Outcome;
    var n := |events| - 1;
    if i: nat :| UpdatesAt(s, events[..n], i, id) && events[..n][i].Mark? && events[..n][i].arrived {
      assert UpdatesAt(s, events, i, id) && events[i].Mark?;
    }
  }

  lemma DecidedLast(s: State, events: seq<Event>, id: nat, verdict: Update, arrived: bool)
    requires events != []
    requires forall i: nat :: i < |events| - 1 ==>
      (UpdatesAt(s, events, i, id) <==> UpdatesAt(s, events[..|events| - 1], i, id))
    ensures var n := |events| - 1;
      DecidedBy(s, events, id, verdict, arrived) <==>
        DecidedBy(s, events[..n], id, verdict, arrived)
        || (UpdatesAt(s, events, n, id) && events[n].Decide?
            && events[n].verdict == verdict && events[n].arrived == arrived)
  {
    hide Possible, Outcome;
    var n := |events| - 1;
    if i: nat :| UpdatesAt(s, events[..n], i, id) && events[..n][i].Decide?
                 && events[..n][i].verdict == verdict && events[..n][i].arrived == arrived {
      assert UpdatesAt(s, events, i, id) && events[i].Decide?;
    }
  }

  // What a row shows, by the updates that were sent for it: the verdict, exactly as it was sent,
  // if one was sent that arrived; else JUDGING if that update arrived; else PENDING.
  lemma StatusIsHistory(c: Config, events: seq<Event>, id: nat)
    requires IsRun(c, events) && id < |End(c, events).rows|
    ensures var row := End(c, events).rows[id];
      && (forall verdict :: DecidedBy(Initial(c), events, id, verdict, true) ==> ReadBack(row) == verdict)
      && (row.status !in {PENDING, JUDGING} <==> exists verdict :: DecidedBy(Initial(c), events, id, verdict, true))
      && (row.status == JUDGING <==>
            MarkedBy(Initial(c), events, id) && !exists verdict :: DecidedBy(Initial(c), events, id, verdict, true))
  {
    RecordIsHistory(c, events, id);
    StoredVerdictIsJudged(c, events, id);
    JudgingIff(c, events, id);
    EndGood(c, events);
    MarkedIff(End(c, events), id);
    var s := End(c, events);
    hide Good, End, IsRun, MarkedBy, RightOutcome, ReadBack;
    if s.log[id].phase.Decided? && s.log[id].phase.verdictArrived {
      assert DecidedBy(Initial(c), events, id, s.log[id].phase.verdict, true);
    }
  }
}
