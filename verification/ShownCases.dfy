// The test case shown for a failed submission: the table that the verdict was decided on is the
// system's own at one moment of the run, and later edits move the shown case only as stated.
module ShownCases {
  import opened Common
  import opened Submissions
  import opened TestCases
  import opened Judge
  import opened SandboxedJudge
  import E = Executor
  import opened Lifecycle
  import opened Guarantees

  // The table a verdict was decided on is the one of the moment of judge's query, which is an
  // event of the run.
  ghost predicate SelectedAt(s: State, events: seq<Event>, n: nat, id: nat)
    requires Possible(s, events)
  {
    && n < |events| && events[n].Select? && Possible(s, events[..n])
    && var t := Outcome(s, events[..n]);
       events[n].w < |t.exec.workers| && E.Busy(t.exec.workers[events[n].w])
       && t.exec.workers[events[n].w].task.submissionId == id
  }

  lemma {:induction false} TableIsSelected(s: State, events: seq<Event>, id: nat) returns (n: nat)
    requires Possible(s, events) && TableOf(s.log, id).None? && TableOf(Outcome(s, events).log, id).Some?
    ensures SelectedAt(s, events, n, id)
    ensures TableOf(Outcome(s, events).log, id) == Some(Outcome(s, events[..n]).tests)
    decreases |events|
  {
    if events != [] {
      var e, t := events[0], Next(s, events[0]);
      FirstSelect(s, e, id);
      if TableOf(t.log, id).Some? {
        n := 0;
        TableStays(t, events[1..], id);
        assert events[..0] == [];
      } else {
        var m := TableIsSelected(t, events[1..], id);
        n := m + 1;
        assert events[..n][0] == e && events[..n][1..] == events[1..][..m];
      }
    }
  }

  lemma FirstSelect(s: State, e: Event, id: nat)
    requires Ready(s, e) && TableOf(s.log, id).None?
    ensures TableOf(Next(s, e).log, id).Some? ==>
      e.Select? && e.w < |s.exec.workers| && E.Busy(s.exec.workers[e.w])
      && s.exec.workers[e.w].task.submissionId == id && TableOf(Next(s, e).log, id) == Some(s.tests)
  {}

  lemma {:induction false} TableStays(s: State, events: seq<Event>, id: nat)
    requires Possible(s, events) && TableOf(s.log, id).Some?
    ensures TableOf(Outcome(s, events).log, id) == TableOf(s.log, id)
    decreases |events|
  {
    if events != [] {
      TableKept(s, events[0], id);
      TableStays(Next(s, events[0]), events[1..], id);
    }
  }

  lemma TableKept(s: State, e: Event, id: nat)
    requires Ready(s, e) && TableOf(s.log, id).Some?
    ensures TableOf(Next(s, e).log, id) == TableOf(s.log, id)
  {}

  // Every case of the problem added or deleted from event n on sorts after c.
  ghost predicate EditsAfter(events: seq<Event>, n: nat, problemId: int, c: TestCase) {
    forall i :: n <= i < |events| && Edits(events[i], problemId) ==> Before(c, events[i].testCase)
  }

  predicate Edits(e: Event, problemId: int) {
    (e.AddCase? || e.DeleteCase?) && e.testCase.problemId == problemId
  }

  lemma {:induction false} EditsKeepEarlier(s: State, events: seq<Event>, problemId: int, c: TestCase)
    requires Possible(s, events) && EditsAfter(events, 0, problemId, c)
    ensures OnlyAfter(s.tests, Outcome(s, events).tests, problemId, c)
    decreases |events|
  {
    if events != [] {
      var rest := events[1..];
      assert EditsAfter(rest, 0, problemId, c) by {
        forall i | 0 <= i < |rest| && Edits(rest[i], problemId)
          ensures Before(c, rest[i].testCase)
        {
          assert rest[i] == events[i + 1];
        }
      }
      EditsOf(s, events[0]);
      assert events[0] == events[0 + 0];
      EditsKeepEarlier(Next(s, events[0]), rest, problemId, c);
    }
  }

  lemma EditsOf(s: State, e: Event)
    requires Ready(s, e)
    ensures forall d :: (d in s.tests) != (d in Next(s, e).tests) ==> (e.AddCase? || e.DeleteCase?) && e.testCase == d
  {}

  // The case that failed, of a row that shows one.
  ghost function FailedCase(s: State, id: nat): TestCase
    requires ShowsFailure(s, id)
  {
    s.log[id].phase.world.cases[ReadBack(s.rows[id]).failedCase - 1]
  }

  ghost predicate ShowsFailure(s: State, id: nat) {
    && id < |s.rows| && id < |s.log| && s.log[id].phase.Decided?
    && 0 < ReadBack(s.rows[id]).failedCase <= |s.log[id].phase.world.cases|
  }

  // A row with a verdict and a failed case always shows a case that failed.
  lemma ShowsFailureIff(c: Config, events: seq<Event>, id: nat)
    requires IsRun(c, events) && id < |End(c, events).rows| && IsVerdict(End(c, events).rows[id].status)
    ensures ShowsFailure(End(c, events), id) <==> ReadBack(End(c, events).rows[id]).failedCase > 0
  {
    StoredVerdictIsJudged(c, events, id);
    var s := End(c, events);
    hide Good, End, IsRun;
    OutcomeIsVerdict(s.log[id].phase.world, s.log[id].phase.verdict);
  }

  // What the row shows is the first case the program failed on.
  ghost predicate ShowsFirstFailure(s: State, id: nat, now: seq<TestCase>) {
    && ShowsFailure(s, id) && s.log[id].phase.world.Valid()
    && FirstFailure(s.log[id].phase.world.cases, s.log[id].phase.world.runs, ReadBack(s.rows[id]).failedCase - 1)
    && CaseAtOffset(now, ReadBack(s.rows[id]).failedCase) == (FailedCase(s, id).input, FailedCase(s, id).expected)
  }

  // The failed case a user is shown is the first case the program failed on, if since judge's
  // query no case of the problem was added or deleted but such as sort after it.
  lemma FailedCaseShown(c: Config, events: seq<Event>, id: nat, n: nat, now: seq<TestCase>)
    requires IsRun(c, events) && SelectedAt(Initial(c), events, n, id) && ShowsFailure(End(c, events), id)
    requires IsVerdict(End(c, events).rows[id].status)
    requires EditsAfter(events, n, End(c, events).rows[id].problemId, FailedCase(End(c, events), id))
    requires IsListing(now, End(c, events).tests, End(c, events).rows[id].problemId)
    ensures ShowsFirstFailure(End(c, events), id, now)
  {
    hide Good, IsRun, End, EditsAfter, SelectedAt, IsListing, RightOutcome, FirstFailure, Sandboxed;
    var s := End(c, events);
    StoredVerdictIsJudged(c, events, id);
    RowFailure(s, id);
    var table := Snapshot(c, events, n, id, FailedCase(s, id));
    OffsetKept(s, id, table, now);
  }

  // The table as judge's query found it, which differs from today's by later cases only.
  lemma Snapshot(c: Config, events: seq<Event>, n: nat, id: nat, failed: TestCase) returns (table: set<TestCase>)
    requires IsRun(c, events) && SelectedAt(Initial(c), events, n, id) && id < |End(c, events).rows|
    requires EditsAfter(events, n, End(c, events).rows[id].problemId, failed)
    ensures TableOf(End(c, events).log, id) == Some(table)
    ensures OnlyAfter(table, End(c, events).tests, End(c, events).rows[id].problemId, failed)
  {
    hide Good, EditsAfter;
    StartGood(c.maxQueue, c.workerThreads, c.window, c.pipe);
    SelectedTable(Initial(c), events, n, id);
    EditsSince(c, events, n, End(c, events).rows[id].problemId, failed);
    table := Outcome(Initial(c), events[..n]).tests;
  }

  // The two tables differ, for the problem, only in cases after c.
  ghost predicate OnlyAfter(a: set<TestCase>, b: set<TestCase>, problemId: int, c: TestCase) {
    forall d :: (d in a) != (d in b) && d.problemId == problemId ==> Before(c, d)
  }

  lemma RowFailure(s: State, id: nat)
    requires ShowsFailure(s, id) && s.log[id].phase.world.Valid()
    requires RightOutcome(s.log[id].phase.world, s.log[id].phase.verdict)
    requires ReadBack(s.rows[id]) == s.log[id].phase.verdict
    ensures s.log[id].phase.world.CasesLoaded()
    ensures FirstFailure(s.log[id].phase.world.cases, s.log[id].phase.world.runs, ReadBack(s.rows[id]).failedCase - 1)
  {
    var k := FailurePosition(s.log[id].phase.world, s.log[id].phase.verdict);
  }

  lemma EditsSince(c: Config, events: seq<Event>, n: nat, problemId: int, failed: TestCase)
    requires IsRun(c, events) && n <= |events| && EditsAfter(events, n, problemId, failed)
    ensures Possible(Initial(c), events[..n])
    ensures OnlyAfter(Outcome(Initial(c), events[..n]).tests, End(c, events).tests, problemId, failed)
  {
    OutcomeSplit(Initial(c), events, n);
    ShiftEdits(events, n, problemId, failed);
    EditsKeepEarlier(Outcome(Initial(c), events[..n]), events[n..], problemId, failed);
  }

  lemma OffsetKept(s: State, id: nat, table: set<TestCase>, now: seq<TestCase>)
    requires ShowsFailure(s, id) && IsListing(s.log[id].phase.world.cases, table, s.rows[id].problemId)
    requires IsListing(now, s.tests, s.rows[id].problemId)
    requires OnlyAfter(table, s.tests, s.rows[id].problemId, FailedCase(s, id))
    ensures CaseAtOffset(now, ReadBack(s.rows[id]).failedCase) == (FailedCase(s, id).input, FailedCase(s, id).expected)
  {
    hide IsListing;
    var k := ReadBack(s.rows[id]).failedCase - 1;
    OffsetStableUnderLaterEdits(s.log[id].phase.world.cases, table, now, s.tests, s.rows[id].problemId, k);
  }

  lemma ShiftEdits(events: seq<Event>, n: nat, problemId: int, c: TestCase)
    requires n <= |events| && EditsAfter(events, n, problemId, c)
    ensures EditsAfter(events[n..], 0, problemId, c)
  {}

  // The query recorded for a row is the only one there is.
  lemma SelectedTable(s: State, events: seq<Event>, n: nat, id: nat)
    requires Good(s) && Possible(s, events) && SelectedAt(s, events, n, id)
    ensures TableOf(Outcome(s, events).log, id) == Some(Outcome(s, events[..n]).tests)
  {
    OutcomeSplit(s, events, n);
    RunGood(s, events[..n]);
    var t := Outcome(s, events[..n]);
    assert events[n..][0] == events[n];
    BusyTask(t, events[n].w);
    TableSet(t, events[n], id);
    TableStays(Next(t, events[n]), events[n..][1..], id);
  }

  lemma TableSet(s: State, e: Event, id: nat)
    requires Ready(s, e) && e.Select? && s.exec.workers[e.w].task.submissionId == id && id < |s.log|
    ensures TableOf(Next(s, e).log, id) == Some(s.tests)
  {}

  // Every verdict that needed the test cases was decided on the table that the system had at one
  // moment of the run: when a worker with this submission queried it.
  lemma DecidedOnOwnTable(c: Config, events: seq<Event>, id: nat) returns (n: nat)
    requires IsRun(c, events) && id < |End(c, events).rows| && IsVerdict(End(c, events).rows[id].status)
    ensures id < |End(c, events).log| && End(c, events).log[id].phase.Decided?
    ensures var s := End(c, events); s.log[id].phase.world.CasesLoaded() ==>
      && SelectedAt(Initial(c), events, n, id)
      && IsListing(s.log[id].phase.world.cases, Outcome(Initial(c), events[..n]).tests, s.rows[id].problemId)
  {
    StoredVerdictIsJudged(c, events, id);
    n := 0;
    if End(c, events).log[id].phase.world.CasesLoaded() {
      n := TableIsSelected(Initial(c), events, id);
    }
  }

  lemma FailurePosition(world: World, verdict: Update) returns (n: nat)
    requires world.Valid() && RightOutcome(world, verdict) && verdict.failedCase > 0
    ensures FirstFailure(world.cases, world.runs, n) && verdict.failedCase == n + 1 && world.CasesLoaded()
  {
    OutcomeIsVerdict(world, verdict);
    assert RightVerdict(world.cases, world.runs, verdict);
    n := verdict.failedCase - 1;
  }
}
