// What the submission system guarantees on every run from start-up: any number of request
// threads and workers, any interleaving, any dropped update, any answers from the world.
module Guarantees {
  import opened Common
  import opened Submissions
  import opened RateLimiter
  import opened Trim
  import opened Judge
  import opened SandboxedJudge
  import E = Executor
  import opened Lifecycle

  datatype Config = Config(maxQueue: int, workerThreads: int, window: int, pipe: nat)

  function Initial(c: Config): State { Start(c.maxQueue, c.workerThreads, c.window, c.pipe) }

  ghost predicate IsRun(c: Config, events: seq<Event>) { Possible(Initial(c), events) }

  ghost function End(c: Config, events: seq<Event>): State
    requires IsRun(c, events)
  {
    Outcome(Initial(c), events)
  }

  lemma EndGood(c: Config, events: seq<Event>)
    requires IsRun(c, events)
    ensures Good(End(c, events)) && End(c, events).pipe == c.pipe
  {
    StartGood(c.maxQueue, c.workerThreads, c.window, c.pipe);
    RunGood(Initial(c), events);
    PipeKept(Initial(c), events);
  }

  lemma {:induction false} PipeKept(s: State, events: seq<Event>)
    requires Possible(s, events)
    ensures Outcome(s, events).pipe == s.pipe
    decreases |events|
  {
    if events != [] {
      NextPipe(s, events[0]);
      PipeKept(Next(s, events[0]), events[1..]);
    }
  }

  lemma NextPipe(s: State, e: Event)
    requires Ready(s, e)
    ensures Next(s, e).pipe == s.pipe
  {}

  // ---- Status never goes back ----

  // The row an event writes, if any.
  function Target(s: State, e: Event): Option<nat> {
    match e
    case Mark(w, _) =>
      if w < |s.exec.workers| && s.exec.workers[w].Marking? then Some(s.exec.workers[w].task.submissionId) else None
    case Decide(w, _, _, _) =>
      if w < |s.exec.workers| && s.exec.workers[w].Judging? then Some(s.exec.workers[w].task.submissionId) else None
    case _ => None
  }

  ghost predicate NoRegress(before: Row, after: Row) {
    && Rank(before.status) <= Rank(after.status)
    && (IsVerdict(before.status) ==> after == before)
    && (before.status !in {PENDING, JUDGING} ==> after == before)
    && (before.status == JUDGING ==> after.status != PENDING)
    && after.userId == before.userId && after.problemId == before.problemId && after.code == before.code
  }

  lemma OtherRowsKept(s: State, e: Event, id: nat)
    requires Ready(s, e) && id < |s.rows| && Target(s, e) != Some(id)
    ensures id < |Next(s, e).rows| && Next(s, e).rows[id] == s.rows[id]
  {}

  lemma TargetRow(s: State, e: Event)
    requires Good(s) && Ready(s, e) && Target(s, e).Some?
    ensures var id := Target(s, e).value;
      id < |s.rows| == |s.log| && id < |Next(s, e).rows|
      && s.log[id].origin < |s.requests|
      && s.rows[id] == Expected(s.requests[s.log[id].origin], s.log[id].phase)
      && Next(s, e).rows[id] == Report(s.rows[id], if e.Mark? then MARK_JUDGING else e.verdict, e.arrived)
      && (if e.Mark? then s.log[id].phase.Untouched? else s.log[id].phase.Marked?)
  {
    PhaseOfBusy(s, e.w);
  }

  lemma StepNoRegress(s: State, e: Event, id: nat)
    requires Good(s) && Ready(s, e) && id < |s.rows|
    ensures id < |Next(s, e).rows| && NoRegress(s.rows[id], Next(s, e).rows[id])
  {
    hide Good;
    if Target(s, e) == Some(id) {
      TargetRow(s, e);
      if e.Decide? {
        OutcomeIsVerdict(e.world, e.verdict);
      }
    } else {
      OtherRowsKept(s, e, id);
    }
  }

  // Over any run PENDING < JUDGING < verdict never decreases, and a verdict row is final.
  lemma {:induction false} StatusNeverGoesBack(s: State, events: seq<Event>, id: nat)
    requires Good(s) && Possible(s, events) && id < |s.rows|
    ensures id < |Outcome(s, events).rows| && NoRegress(s.rows[id], Outcome(s, events).rows[id])
    decreases |events|
  {
    hide Good;
    if events != [] {
      StepGood(s, events[0]);
      StepNoRegress(s, events[0], id);
      StatusNeverGoesBack(Next(s, events[0]), events[1..], id);
    }
  }

  // ---- What a stored verdict means ----

  // A row shows a verdict exactly when judge's update arrived, and then it reads back exactly
  // the right outcome for the row's own program on the test cases its problem had.
  lemma StoredVerdictIsJudged(c: Config, events: seq<Event>, id: nat)
    requires IsRun(c, events) && id < |End(c, events).rows|
    ensures var s := End(c, events);
      id < |s.log| && (IsVerdict(s.rows[id].status) <==> s.log[id].phase.Decided? && s.log[id].phase.verdictArrived)
    ensures var s := End(c, events);
      IsVerdict(s.rows[id].status) ==>
        && s.log[id].phase.world.Valid()
        && s.log[id].phase.world.About(s.rows[id].code, s.rows[id].problemId, s.log[id].table)
        && Sandboxed(s.log[id].phase.world, c.pipe)
        && RightOutcome(s.log[id].phase.world, s.log[id].phase.verdict)
        && ReadBack(s.rows[id]) == s.log[id].phase.verdict
  {
    EndGood(c, events);
    var s := End(c, events);
    var q, phase := s.requests[s.log[id].origin], s.log[id].phase;
    if phase.Decided? {
      OutcomeIsVerdict(phase.world, phase.verdict);
      FirstVerdictReadsBack(NewRow(q.userId, q.problemId, q.code), phase.verdict);
      ExpectedKeeps(q, phase);
    }
  }

  // No row ever shows MLE. A row shows AC only if every case ran to a clean exit with the
  // expected lines, and with no more output than a pipe holds.
  lemma StoredVerdictIsSandboxed(c: Config, events: seq<Event>, id: nat)
    requires IsRun(c, events) && id < |End(c, events).rows|
    ensures var s := End(c, events); id < |s.log| && s.rows[id].status != MLE
    ensures var s := End(c, events); s.rows[id].status == AC ==>
      s.log[id].phase.Decided? && var world := s.log[id].phase.world;
      world.CasesLoaded() && |world.runs| == |world.cases| && forall k :: 0 <= k < |world.cases| ==>
        CleanAndFitting(world.runs[k], c.pipe) && SameLines(world.runs[k].output, world.cases[k].expected)
  {
    StoredVerdictIsJudged(c, events, id);
    var s := End(c, events);
    hide Good, End, IsRun, SameLines;
    if IsVerdict(s.rows[id].status) {
      SandboxedOutcome(s.log[id].phase.world, s.log[id].phase.verdict, c.pipe);
    }
  }

  // ---- Where a PENDING row stands ----

  ghost predicate NotYetAccepted(s: State, id: nat) {
    exists r :: 0 <= r < |s.requests| && (s.requests[r].progress == HasRow(id) || s.requests[r].progress == Refused(id))
  }

  ghost predicate InQueue(s: State, id: nat) {
    exists k :: 0 <= k < |s.exec.queue| && s.exec.queue[k].submissionId == id
  }

  ghost predicate AboutToBeMarked(s: State, id: nat) {
    exists w :: 0 <= w < |s.exec.workers| && s.exec.workers[w].Marking? && s.exec.workers[w].task.submissionId == id
  }

  // Every update attempted so far, and at least one was, has been dropped.
  predicate AllUpdatesDropped(phase: Phase) {
    match phase
    case Untouched => false
    case Marked(m) => !m
    case Decided(m, _, _, v) => !m && !v
  }

  // The place of a queued request's task among the accepted ones.
  lemma PlaceOf(s: State, id: nat)
    requires Good(s) && id < |s.rows|
    ensures id < |s.log| && s.log[id].origin < |s.requests| && IdOf(s.requests[s.log[id].origin].progress) == Some(id)
    ensures |s.exec.accepted| == |s.exec.taken| + |s.exec.queue|
    ensures forall j :: 0 <= j < |s.exec.queue| ==> s.exec.accepted[|s.exec.taken| + j] == s.exec.queue[j]
    ensures forall k :: 0 <= k < |s.exec.accepted| && s.exec.accepted[k].submissionId == id ==>
      s.requests[s.log[id].origin].progress == Queued(id, k)
    ensures s.requests[s.log[id].origin].progress.Queued? ==>
      var k := s.requests[s.log[id].origin].progress.place;
      k < |s.exec.accepted| && s.exec.accepted[k].submissionId == id
  {
    hide RowsInv, AcceptedInv, PhaseInv, TokenInv, E.MutexInv, E.OwnerInv, E.Noticed;
    OriginOf(s.pipe, s.requests, s.rows, s.log, id);
    PlacesOf(s.requests, s.log, s.exec.accepted, id);
  }

  lemma OriginOf(pipe: nat, requests: seq<Request>, rows: seq<Row>, log: seq<Trace>, id: nat)
    requires RowsInv(pipe, requests, rows, log) && id < |rows|
    ensures id < |log| && log[id].origin < |requests| && IdOf(requests[log[id].origin].progress) == Some(id)
  {}

  lemma PlacesOf(requests: seq<Request>, log: seq<Trace>, accepted: seq<E.SubmitTask>, id: nat)
    requires AcceptedInv(requests, log, accepted) && id < |log| && log[id].origin < |requests|
    requires IdOf(requests[log[id].origin].progress) == Some(id)
    ensures forall k :: 0 <= k < |accepted| && accepted[k].submissionId == id ==>
      requests[log[id].origin].progress == Queued(id, k)
    ensures requests[log[id].origin].progress.Queued? ==>
      var k := requests[log[id].origin].progress.place;
      k < |accepted| && accepted[k].submissionId == id
  {}

  lemma UntouchedIsSomewhere(s: State, id: nat)
    requires Good(s) && id < |s.rows| && id < |s.log| && s.log[id].phase.Untouched?
    ensures NotYetAccepted(s, id) || InQueue(s, id) || AboutToBeMarked(s, id)
  {
    PlaceOf(s, id);
    var r := s.log[id].origin;
    var q := s.requests[r];
    if q.progress.Queued? {
      var k := q.progress.place;
      if k < |s.exec.taken| {
        WorkerOf(s, id, k);
      } else {
        assert s.exec.queue[k - |s.exec.taken|] == s.exec.accepted[k];
      }
    } else {
      assert s.requests[r].progress == HasRow(id) || s.requests[r].progress == Refused(id);
    }
  }

  lemma WorkerOf(s: State, id: nat, k: nat)
    requires Good(s) && id < |s.log| && s.log[id].phase.Untouched?
    requires k < |s.exec.taken| && k < |s.exec.accepted| && s.exec.accepted[k].submissionId == id
    ensures AboutToBeMarked(s, id)
  {
    assert s.exec.workers[s.log[id].worker] == E.Marking(s.exec.accepted[k]);
  }

  // A row with an attempted update belongs to a taken task, which is nowhere else any more.
  lemma TouchedIsTaken(s: State, id: nat)
    requires Good(s) && id < |s.rows| && id < |s.log| && !s.log[id].phase.Untouched?
    ensures !NotYetAccepted(s, id) && !InQueue(s, id) && !AboutToBeMarked(s, id)
  {
    PlaceOf(s, id);
    var k := TakenAt(s, id);
    OnlyOrigin(s, id);
    hide Good;
    var q := s.requests[s.log[id].origin];
    assert q.progress == Queued(id, k);
    forall j | 0 <= j < |s.exec.queue| ensures s.exec.queue[j].submissionId != id {
      assert s.exec.accepted[|s.exec.taken| + j] == s.exec.queue[j];
    }
  }

  lemma TakenAt(s: State, id: nat) returns (k: nat)
    requires Good(s) && id < |s.log| && !s.log[id].phase.Untouched?
    ensures k < |s.exec.taken| && k < |s.exec.accepted| && s.exec.accepted[k].submissionId == id
    ensures !AboutToBeMarked(s, id)
  {
    k :| 0 <= k < |s.exec.taken| && k < |s.exec.accepted| && s.exec.accepted[k].submissionId == id;
  }

  lemma OnlyOrigin(s: State, id: nat)
    requires Good(s) && id < |s.log|
    ensures forall r :: 0 <= r < |s.requests| && IdOf(s.requests[r].progress) == Some(id) ==> s.log[id].origin == r
  {}

  lemma UntouchedIff(s: State, id: nat)
    requires Good(s) && id < |s.rows|
    ensures id < |s.log|
    ensures s.log[id].phase.Untouched? <==> NotYetAccepted(s, id) || InQueue(s, id) || AboutToBeMarked(s, id)
  {
    PlaceOf(s, id);
    hide Good;
    if s.log[id].phase.Untouched? {
      UntouchedIsSomewhere(s, id);
    } else {
      TouchedIsTaken(s, id);
    }
  }

  // A row is PENDING exactly when its request has not been accepted by the queue (including
  // the 503 answers, which stay PENDING for good), or it is queued, or its worker is about to
  // mark it, or every update sent for it so far was dropped.
  lemma PendingIff(c: Config, events: seq<Event>, id: nat)
    requires IsRun(c, events) && id < |End(c, events).rows|
    ensures var s := End(c, events);
      id < |s.log| && (s.rows[id].status == PENDING <==>
        NotYetAccepted(s, id) || InQueue(s, id) || AboutToBeMarked(s, id) || AllUpdatesDropped(s.log[id].phase))
  {
    EndGood(c, events);
    var s := End(c, events);
    UntouchedIff(s, id);
    var phase := s.log[id].phase;
    if phase.Decided? {
      OutcomeIsVerdict(phase.world, phase.verdict);
    }
  }

  // A request answered with 503 leaves its row PENDING for good: no later event touches it.
  lemma {:induction false} RefusedStaysPending(s: State, events: seq<Event>, r: nat, id: nat)
    requires Good(s) && Possible(s, events) && r < |s.requests| && s.requests[r].progress == Refused(id)
    ensures var t := Outcome(s, events);
      r < |t.requests| && t.requests[r].progress == Refused(id) && id < |t.rows| && t.rows[id].status == PENDING
    decreases |events|
  {
    if events == [] {
      RefusedIsPending(s, r, id);
    } else {
      hide Good;
      StepGood(s, events[0]);
      RefusedKept(s, events[0], r, id);
      RefusedStaysPending(Next(s, events[0]), events[1..], r, id);
    }
  }

  lemma RefusedIsPending(s: State, r: nat, id: nat)
    requires Good(s) && r < |s.requests| && s.requests[r].progress == Refused(id)
    ensures id < |s.rows| && s.rows[id].status == PENDING
  {
    assert NotYetAccepted(s, id);
    UntouchedIff(s, id);
  }

  lemma RefusedKept(s: State, e: Event, r: nat, id: nat)
    requires Ready(s, e) && r < |s.requests| && s.requests[r].progress == Refused(id)
    ensures r < |Next(s, e).requests| && Next(s, e).requests[r].progress == Refused(id)
  {}

  // ---- Where a JUDGING row stands ----

  // A worker is in the call of judge for this row, be it for ever.
  ghost predicate InsideJudge(s: State, id: nat) {
    exists w :: 0 <= w < |s.exec.workers| && (s.exec.workers[w].Judging? || s.exec.workers[w].Hanging?)
      && s.exec.workers[w].task.submissionId == id
  }

  lemma MarkedIff(s: State, id: nat)
    requires Good(s) && id < |s.rows|
    ensures id < |s.log| && (s.log[id].phase.Marked? <==> InsideJudge(s, id))
  {
    if s.log[id].phase.Marked? {
      var k := TakenAt(s, id);
      assert IsInside(s.exec.workers[s.log[id].worker], s.exec.accepted[k]);
    }
  }

  // A row is JUDGING exactly when its first update arrived and either a worker is still inside
  // judge with it or the verdict was dropped.
  lemma JudgingIff(c: Config, events: seq<Event>, id: nat)
    requires IsRun(c, events) && id < |End(c, events).rows|
    ensures var s := End(c, events);
      id < |s.log| && (s.rows[id].status == JUDGING <==>
        MarkArrived(s.log, id) && (InsideJudge(s, id) || (s.log[id].phase.Decided? && !s.log[id].phase.verdictArrived)))
  {
    EndGood(c, events);
    var s := End(c, events);
    MarkedIff(s, id);
    var phase := s.log[id].phase;
    if phase.Decided? {
      OutcomeIsVerdict(phase.world, phase.verdict);
    }
  }

  // A row whose call of judge hangs keeps its status, and never gets a verdict.
  lemma {:induction false} HungKeepsRow(s: State, events: seq<Event>, w: nat)
    requires Good(s) && Possible(s, events) && w < |s.exec.workers| && s.exec.workers[w].Hanging?
    ensures var t, id := Outcome(s, events), s.exec.workers[w].task.submissionId;
      w < |t.exec.workers| && t.exec.workers[w] == s.exec.workers[w]
      && id < |s.rows| && id < |t.rows| && t.rows[id] == s.rows[id] && !IsVerdict(s.rows[id].status)
    decreases |events|
  {
    hide Good;
    HungIsUndecided(s, w);
    if events != [] {
      StepGood(s, events[0]);
      HungStep(s, events[0], w);
      HungKeepsRow(Next(s, events[0]), events[1..], w);
    }
  }

  lemma HungIsUndecided(s: State, w: nat)
    requires Good(s) && w < |s.exec.workers| && s.exec.workers[w].Hanging?
    ensures var id := s.exec.workers[w].task.submissionId; id < |s.rows| && !IsVerdict(s.rows[id].status)
  {
    PhaseOfBusy(s, w);
  }

  lemma HungStep(s: State, e: Event, w: nat)
    requires Good(s) && Ready(s, e) && w < |s.exec.workers| && s.exec.workers[w].Hanging?
    ensures var t, id := Next(s, e), s.exec.workers[w].task.submissionId;
      w < |t.exec.workers| && t.exec.workers[w] == s.exec.workers[w]
      && id < |s.rows| && id < |t.rows| && t.rows[id] == s.rows[id]
  {
    PhaseOfBusy(s, w);
    BusyTask(s, w);
    hide Good, Next, Ready;
    NotTarget(s, e, w);
    OtherRowsKept(s, e, s.exec.workers[w].task.submissionId);
    HungStays(s, e, w);
  }

  lemma NotTarget(s: State, e: Event, w: nat)
    requires w < |s.exec.workers| && s.exec.workers[w].Hanging? && OtherIds(s.exec.workers, w)
    ensures Target(s, e) != Some(s.exec.workers[w].task.submissionId)
  {}

  lemma HungStays(s: State, e: Event, w: nat)
    requires Good(s) && Ready(s, e) && w < |s.exec.workers| && s.exec.workers[w].Hanging?
    ensures w < |Next(s, e).exec.workers| && Next(s, e).exec.workers[w] == s.exec.workers[w]
  {
    ActionIsStep(s, e);
    hide Good, Ready, Next, ActionOf;
    if ActionOf(s, e).Some? {
      E.HungOneStays(s.exec, ActionOf(s, e).value, w);
    }
  }

  // ---- Accounting ----

  function QueuedWeight(q: Request): nat { if q.progress.Queued? then 1 else 0 }
  function RefusedWeight(q: Request): nat { if q.progress.Refused? then 1 else 0 }
  function WaitingWeight(q: Request): nat { if q.progress.HasRow? then 1 else 0 }

  function RowOf(u: int): Row -> nat { (row: Row) => if row.userId == u then 1 else 0 }
  function RequestOf(u: int): Request -> nat { (q: Request) => if q.userId == u then 1 else 0 }
  function InsertedBy(u: int): Request -> nat {
    (q: Request) => if q.userId == u && IdOf(q.progress).Some? then 1 else 0
  }
  function TokenOf(u: int): Call -> nat { (c: Call) => if c.userId == u then 1 else 0 }

  ghost predicate Counted(s: State, u: int) {
    && |s.rows| == Sum(s.requests, QueuedWeight) + Sum(s.requests, RefusedWeight) + Sum(s.requests, WaitingWeight)
    && |s.exec.accepted| == Sum(s.requests, QueuedWeight)
    && Sum(s.rows, RowOf(u)) == Sum(s.requests, InsertedBy(u))
  }

  lemma RequestAdded(requests: seq<Request>, q: Request, u: int)
    ensures Sum(requests + [q], QueuedWeight) == Sum(requests, QueuedWeight) + QueuedWeight(q)
    ensures Sum(requests + [q], RefusedWeight) == Sum(requests, RefusedWeight) + RefusedWeight(q)
    ensures Sum(requests + [q], WaitingWeight) == Sum(requests, WaitingWeight) + WaitingWeight(q)
    ensures Sum(requests + [q], InsertedBy(u)) == Sum(requests, InsertedBy(u)) + InsertedBy(u)(q)
  {
    SumAppend(requests, q, QueuedWeight);
    SumAppend(requests, q, RefusedWeight);
    SumAppend(requests, q, WaitingWeight);
    SumAppend(requests, q, InsertedBy(u));
  }

  lemma RequestChanged(requests: seq<Request>, r: nat, q: Request, u: int)
    requires r < |requests|
    ensures var after, old_ := requests[r := q], requests[r];
      && Sum(after, QueuedWeight) + QueuedWeight(old_) == Sum(requests, QueuedWeight) + QueuedWeight(q)
      && Sum(after, RefusedWeight) + RefusedWeight(old_) == Sum(requests, RefusedWeight) + RefusedWeight(q)
      && Sum(after, WaitingWeight) + WaitingWeight(old_) == Sum(requests, WaitingWeight) + WaitingWeight(q)
      && Sum(after, InsertedBy(u)) + InsertedBy(u)(old_) == Sum(requests, InsertedBy(u)) + InsertedBy(u)(q)
  {
    SumUpdate(requests, r, q, QueuedWeight);
    SumUpdate(requests, r, q, RefusedWeight);
    SumUpdate(requests, r, q, WaitingWeight);
    SumUpdate(requests, r, q, InsertedBy(u));
  }

  lemma RequestStepCounted(s: State, e: Event, u: int)
    requires (e.Submit? || e.Abort? || e.Insert? || e.Offer?) && Ready(s, e) && Counted(s, u)
    ensures Counted(Next(s, e), u)
  {
    hide LastAfter, Sum;
    var t := Next(s, e);
    match e {
      case Submit(v, p, code, _) =>
        RequestAdded(s.requests, Request(v, p, code, Admitted), u);
      case Abort(r) =>
        RequestChanged(s.requests, r, t.requests[r], u);
      case Insert(r) =>
        RequestChanged(s.requests, r, t.requests[r], u);
        SumAppend(s.rows, t.rows[|s.rows|], RowOf(u));
      case Offer(r, _, _) =>
        RequestChanged(s.requests, r, t.requests[r], u);
    }
  }

  lemma StepCounted(s: State, e: Event, u: int)
    requires Good(s) && Ready(s, e) && Counted(s, u)
    ensures Counted(Next(s, e), u)
  {
    hide Good, Sum;
    match e {
      case Move(w, timedOut) =>
        WorkAccepts(s.exec, w, timedOut);
      case Mark(w, _) =>
        WorkAccepts(s.exec, w, false);
        RowWrite(s, e, u);
      case Decide(w, _, _, _) =>
        WorkAccepts(s.exec, w, false);
        RowWrite(s, e, u);
      case Select(_) =>
      case Hang(_) =>
      case Deliver(_) =>
      case AddCase(_) =>
      case DeleteCase(_) =>
      case Shutdown =>
      case Notify =>
      case _ =>
        RequestStepCounted(s, e, u);
    }
  }

  lemma WorkAccepts(x: E.State, w: nat, timedOut: bool)
    requires E.CanWork(x, w)
    ensures E.WorkStep(x, w, timedOut).accepted == x.accepted
  {}

  lemma RowWrite(s: State, e: Event, u: int)
    requires Good(s) && Ready(s, e) && (e.Mark? || e.Decide?)
    ensures |Next(s, e).rows| == |s.rows| && Sum(Next(s, e).rows, RowOf(u)) == Sum(s.rows, RowOf(u))
  {
    hide Good, E.WorkStep, Sum;
    TargetRow(s, e);
    var id := Target(s, e).value;
    SumUpdate(s.rows, id, Next(s, e).rows[id], RowOf(u));
  }

  lemma {:induction false} RunCounted(s: State, events: seq<Event>, u: int)
    requires Good(s) && Possible(s, events) && Counted(s, u)
    ensures Counted(Outcome(s, events), u)
    decreases |events|
  {
    hide Good, Counted;
    if events != [] {
      StepGood(s, events[0]);
      StepCounted(s, events[0], u);
      RunCounted(Next(s, events[0]), events[1..], u);
    }
  }

  lemma {:induction false} TokensMatch(requests: seq<Request>, granted: seq<Call>, u: int)
    requires TokenInv(requests, granted)
    ensures Sum(requests, RequestOf(u)) == Sum(granted, TokenOf(u))
  {
    if requests != [] {
      TokensMatch(requests[1..], granted[1..], u);
    }
  }

  lemma CountedTotals(s: State, u: int)
    requires Good(s) && Counted(s, u)
    ensures |s.rows|
         == |s.exec.taken| + |s.exec.queue| + Sum(s.requests, RefusedWeight) + Sum(s.requests, WaitingWeight)
    ensures Sum(s.rows, RowOf(u)) <= Sum(Granted(s.calls, s.window), TokenOf(u))
  {
    SumMonotone(s.requests, InsertedBy(u), RequestOf(u));
    TokensMatch(s.requests, Granted(s.calls, s.window), u);
  }

  // Inserted rows are the accepted ones (taken or queued), the refused ones, and those between
  // the insert and enqueue; and no user has more rows than granted rate-limit tokens.
  lemma SubmissionsAccounted(c: Config, events: seq<Event>, u: int)
    requires IsRun(c, events)
    ensures var s := End(c, events);
      && |s.rows| == |s.exec.taken| + |s.exec.queue| + Sum(s.requests, RefusedWeight) + Sum(s.requests, WaitingWeight)
      && Sum(s.rows, RowOf(u)) <= Sum(Granted(s.calls, s.window), TokenOf(u))
  {
    hide Good;
    StartGood(c.maxQueue, c.workerThreads, c.window, c.pipe);
    RunCounted(Initial(c), events, u);
    EndGood(c, events);
    CountedTotals(End(c, events), u);
  }

  // ---- Tasks and workers ----

  // A worker judges exactly the program that was submitted, and no two workers ever use the
  // same sandbox directory.
  lemma WorkersJudgeSubmittedCode(c: Config, events: seq<Event>, v: nat, w: nat)
    requires IsRun(c, events)
    requires v < |End(c, events).exec.workers| && w < |End(c, events).exec.workers|
    requires E.Busy(End(c, events).exec.workers[v]) && E.Busy(End(c, events).exec.workers[w])
    ensures var s := End(c, events); var task := s.exec.workers[w].task;
      task.submissionId < |s.rows| && task.code == s.rows[task.submissionId].code
      && task.problemId == s.rows[task.submissionId].problemId && task.userId == s.rows[task.submissionId].userId
    ensures var s := End(c, events);
      v != w ==> s.exec.workers[v].task.submissionId != s.exec.workers[w].task.submissionId
  {
    EndGood(c, events);
    CodeOfTask(End(c, events), w);
    BusyTask(End(c, events), w);
  }

  lemma CodeOfTask(s: State, w: nat)
    requires Good(s) && w < |s.exec.workers| && E.Busy(s.exec.workers[w])
    ensures var task := s.exec.workers[w].task;
      task.submissionId < |s.rows| && task.code == s.rows[task.submissionId].code
      && task.problemId == s.rows[task.submissionId].problemId && task.userId == s.rows[task.submissionId].userId
  {
    BusyTask(s, w);
    var task := s.exec.workers[w].task;
    var k :| 0 <= k < |s.exec.taken| && s.exec.taken[k] == task;
    assert s.exec.accepted[..|s.exec.taken|][k] == task;
    RowOfAccepted(s, k);
  }

  lemma RowOfAccepted(s: State, k: nat)
    requires Good(s) && k < |s.exec.accepted|
    ensures var task := s.exec.accepted[k];
      task.submissionId < |s.rows| && task.code == s.rows[task.submissionId].code
      && task.problemId == s.rows[task.submissionId].problemId && task.userId == s.rows[task.submissionId].userId
  {
    var id := s.exec.accepted[k].submissionId;
    assert s.requests[s.log[id].origin].progress == Queued(id, k);
    ExpectedKeeps(s.requests[s.log[id].origin], s.log[id].phase);
  }

  lemma ExpectedKeeps(q: Request, phase: Phase)
    ensures Expected(q, phase).userId == q.userId && Expected(q, phase).problemId == q.problemId
    ensures Expected(q, phase).code == q.code
  {}
}
